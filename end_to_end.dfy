/**
 * The notification path end to end. Control commands reach AprendeMasService, which
 * drives the NotificationManager. Every message the manager sends crosses the pipe as one
 * line on a connection of its own, and the tray notifier handles each non-empty first line
 * in order. With every pipe send succeeding, the tray's listening flag follows the
 * manager's running flag as long as no notification's first line reads as a command, and
 * the first line of every notification the manager forwards is shown.
 */
module EndToEnd {

  import opened Wrappers
  import opened Strings
  import opened Notifications
  import opened Service
  import opened Pipe
  import opened TraySpec

  /** What happens on the service side: a command from the control pipe, or a notification to forward. */
  datatype Event = Command(command: string) | Notification(message: string)

  /** One event at the manager; the pipe only grows. */
  function Apply(m: Manager, e: Event): (m': Manager)
    ensures |m'.pipe| >= |m.pipe| && m'.pipe[..|m.pipe|] == m.pipe
  {
    match e
    case Command(c) => Dispatch(m, c, true)
    case Notification(msg) => Send(m, msg, true).0
  }

  /** The events in turn; the pipe only grows. */
  function Run(m: Manager, events: seq<Event>): (r: Manager)
    ensures |r.pipe| >= |m.pipe| && r.pipe[..|m.pipe|] == m.pipe
    decreases |events|
  {
    if events == [] then m
    else
      var m1 := Apply(m, events[0]);
      var r := Run(m1, events[1..]);
      assert r.pipe[..|m.pipe|] == r.pipe[..|m1.pipe|][..|m.pipe|];
      r
  }

  /** The lines the tray hands to `HandleMessage` for these pipe messages. */
  function Delivered(messages: seq<string>): seq<string>
  {
    NonEmptyLines(Received(messages))
  }

  /**
   * Notifications whose first line the tray would take for a command break the protocol;
   * these have none.
   */
  ghost predicate PlainNotifications(events: seq<Event>)
  {
    forall i :: 0 <= i < |events| && events[i].Notification? ==>
      !IsStart(ReadLine(events[i].message)) && !IsStop(ReadLine(events[i].message))
  }

  /** What one event adds to the pipe. */
  function Sent(m: Manager, e: Event): seq<string>
  {
    Apply(m, e).pipe[|m.pipe|..]
  }

  /** What a run adds to the pipe is what its first event adds, then what the rest add. */
  lemma RunPipeSplit(m: Manager, events: seq<Event>)
    requires events != []
    ensures Run(m, events).pipe[|m.pipe|..]
         == Sent(m, events[0]) + Run(Apply(m, events[0]), events[1..]).pipe[|Apply(m, events[0]).pipe|..]
  {
    var m1 := Apply(m, events[0]);
    var p := Run(m1, events[1..]).pipe;
    assert p[..|m1.pipe|] == m1.pipe;
    assert p[|m.pipe|..] == m1.pipe[|m.pipe|..] + p[|m1.pipe|..];
  }

  /** Messages sent one after another are delivered one after another. */
  lemma DeliveredAppend(a: seq<string>, b: seq<string>)
    ensures Delivered(a + b) == Delivered(a) + Delivered(b)
  {
    ReceivedAppend(a, b);
    NonEmptyLinesAppend(Received(a), Received(b));
  }

  /** One message reaches the tray as its first line, unless that line is empty. */
  lemma DeliveredOne(message: string)
    ensures Delivered([message]) == if ReadLine(message) == [] then [] else [ReadLine(message)]
  {
    var lines := Received([message]);
    assert lines == [Some(ReadLine(message))];
    assert lines[..0] == [];
  }

  /** The manager's own commands cross the pipe whole. */
  lemma CommandsCrossWhole()
    ensures Delivered([StartCommand]) == [StartCommand]
    ensures Delivered([StopCommand]) == [StopCommand]
  {
    ReadLineOfSingleLine(StartCommand);
    ReadLineOfSingleLine(StopCommand);
    DeliveredOne(StartCommand);
    DeliveredOne(StopCommand);
  }

  /** One event keeps the tray in step with the manager. */
  lemma StepAgrees(m: Manager, t: TrayState, e: Event, saveOk: bool)
    requires t.listening == m.running
    requires e.Notification? ==> !IsStart(ReadLine(e.message)) && !IsStop(ReadLine(e.message))
    ensures HandleAll(t, Delivered(Sent(m, e)), saveOk).listening == Apply(m, e).running
  {
    var d := Sent(m, e);
    match e
    case Command(c) =>
      DispatchCases(m, c, true);
      CommandsCrossWhole();
      if d != [] {
        var k := if EqualsIgnoreCase(c, StartCommand) then StartCommand else StopCommand;
        assert d == [k];
        assert [k][1..] == [];
      } else {
        assert Received([]) == [];
      }
    case Notification(msg) =>
      DeliveredOne(msg);
      if d != [] {
        assert d == [msg];
        assert [ReadLine(msg)][1..] == [];
      } else {
        assert Received([]) == [];
      }
  }

  /**
   * Over any run of events the tray, handling what crosses the pipe, ends listening
   * exactly when the manager is running.
   */
  lemma {:induction false} TrayFollowsManager(m: Manager, t: TrayState, events: seq<Event>, saveOk: bool)
    requires t.listening == m.running
    requires PlainNotifications(events)
    ensures HandleAll(t, Delivered(Run(m, events).pipe[|m.pipe|..]), saveOk).listening == Run(m, events).running
    decreases |events|
  {
    if events == [] {
      assert m.pipe[|m.pipe|..] == [];
      assert Delivered([]) == [] by { assert Received([]) == []; }
    } else {
      var e := events[0];
      var m1 := Apply(m, e);
      StepAgrees(m, t, e, saveOk);
      var d1 := Sent(m, e);
      var t1 := HandleAll(t, Delivered(d1), saveOk);
      assert PlainNotifications(events[1..]) by {
        forall i | 0 <= i < |events[1..]| && events[1..][i].Notification?
          ensures !IsStart(ReadLine(events[1..][i].message)) && !IsStop(ReadLine(events[1..][i].message))
        {
          assert events[1..][i] == events[i + 1];
        }
      }
      TrayFollowsManager(m1, t1, events[1..], saveOk);
      var d2 := Run(m1, events[1..]).pipe[|m1.pipe|..];
      RunPipeSplit(m, events);
      DeliveredAppend(d1, d2);
      HandleAllSplit(t, Delivered(d1), Delivered(d2), saveOk);
    }
  }

  /**
   * A notification forwarded by a running manager shows its first line as the next
   * balloon, unless that line is empty; a stopped manager shows nothing.
   */
  lemma NotificationReachesTray(m: Manager, t: TrayState, message: string, saveOk: bool)
    requires t.listening == m.running
    requires !IsStart(ReadLine(message)) && !IsStop(ReadLine(message))
    ensures HandleAll(t, Delivered(Sent(m, Notification(message))), saveOk).shown
        == t.shown + (if m.running && ReadLine(message) != [] then [Balloon(TitleNotification, ReadLine(message))] else [])
  {
    var d := Sent(m, Notification(message));
    DeliveredOne(message);
    if m.running {
      assert d == [message];
      assert [ReadLine(message)][1..] == [];
    } else {
      assert d == [];
      assert Received([]) == [];
    }
  }

  /**
   * The protocol has no framing beyond the line: a notification whose first line reads
   * `STOP` pauses the tray while the manager keeps running and forwarding.
   */
  lemma StopLineInNotificationPausesTray(m: Manager, t: TrayState, message: string, saveOk: bool)
    requires m.running && t.listening
    requires IsStop(ReadLine(message)) && !IsStart(ReadLine(message))
    ensures Apply(m, Notification(message)).running
    ensures !HandleAll(t, Delivered(Sent(m, Notification(message))), saveOk).listening
  {
    DeliveredOne(message);
    var line := ReadLine(message);
    assert line != [] by {
      assert |line| == |StopCommand|;
    }
    assert Sent(m, Notification(message)) == [message];
    assert [line][1..] == [];
  }
}
