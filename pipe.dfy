/**
 * The named pipe from the notification manager to the tray. Every message travels on a
 * connection of its own: the sender writes it with `WriteLineAsync`, the tray reads one
 * line with `ReadLineAsync` and closes the connection, so whatever follows the first
 * line break never reaches the tray.
 */
module Pipe {

  import opened Wrappers

  /** The characters `StreamReader.ReadLine` ends a line at (`\r`, `\n`, and `\r\n` as one). */
  predicate IsLineBreak(c: char)
  {
    c == '\r' || c == '\n'
  }

  /** `ReadLineAsync` on what `WriteLineAsync(message)` wrote: the text before the first line break. */
  function ReadLine(message: string): (line: string)
    ensures line <= message
    ensures forall i :: 0 <= i < |line| ==> !IsLineBreak(line[i])
    ensures |line| < |message| ==> IsLineBreak(message[|line|])
  {
    if message == [] || IsLineBreak(message[0]) then []
    else
      var rest := ReadLine(message[1..]);
      assert message == [message[0]] + message[1..];
      [message[0]] + rest
  }

  /** A message without line breaks arrives whole. */
  lemma ReadLineOfSingleLine(message: string)
    requires forall i :: 0 <= i < |message| ==> !IsLineBreak(message[i])
    ensures ReadLine(message) == message
  {
    var line := ReadLine(message);
    if |line| < |message| {
      assert IsLineBreak(message[|line|]);
    }
  }

  /** Of a message with several lines only the first arrives. */
  lemma ReadLineOfJoin(first: string, sep: char, rest: string)
    requires forall i :: 0 <= i < |first| ==> !IsLineBreak(first[i])
    requires IsLineBreak(sep)
    ensures ReadLine(first + [sep] + rest) == first
  {
    var m := first + [sep] + rest;
    var line := ReadLine(m);
    assert m[|first|] == sep;
    assert line == m[..|line|] && m[..|first|] == first;
  }

  /** What the tray's reader gets from each connection, in the order the messages were sent. */
  function Received(messages: seq<string>): (lines: seq<Option<string>>)
    ensures |lines| == |messages|
    ensures forall i :: 0 <= i < |messages| ==> lines[i] == Some(ReadLine(messages[i]))
  {
    if messages == [] then []
    else [Some(ReadLine(messages[0]))] + Received(messages[1..])
  }

  /** Messages sent one after the other are received one after the other. */
  lemma ReceivedAppend(a: seq<string>, b: seq<string>)
    ensures Received(a + b) == Received(a) + Received(b)
  {
    var l, r := Received(a + b), Received(a) + Received(b);
    assert |l| == |r|;
    forall i | 0 <= i < |l| ensures l[i] == r[i] {
      if i < |a| { assert (a + b)[i] == a[i]; } else { assert (a + b)[i] == b[i - |a|]; }
    }
  }
}
