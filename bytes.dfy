/**
 * Bytes and the 32-bit length header of the binary transfer protocol. The header is
 * decoded exactly as WebSocketServer.cs line 266 does it: the first four bytes are
 * reversed and handed to `BitConverter.ToInt32`, which on the little-endian machines
 * the service runs on reads a two's-complement value least significant byte first.
 */
module Bytes {

  newtype byte = x: int | 0 <= x < 0x100

  const Int32Min: int := -0x8000_0000
  const Int32Max: int := 0x7FFF_FFFF
  const TwoTo32: int := 0x1_0000_0000

  /** `Enumerable.Reverse`. */
  function Reverse<T>(s: seq<T>): (r: seq<T>)
    ensures |r| == |s|
    ensures forall i :: 0 <= i < |s| ==> r[i] == s[|s| - 1 - i]
  {
    if s == [] then [] else Reverse(s[1..]) + [s[0]]
  }

  /** `BitConverter.ToInt32(b, 0)` on a little-endian machine. */
  function ToInt32LittleEndian(b: seq<byte>): (n: int)
    requires |b| == 4
    ensures Int32Min <= n <= Int32Max
  {
    var u := b[0] as int + 0x100 * b[1] as int + 0x1_0000 * b[2] as int + 0x100_0000 * b[3] as int;
    if u > Int32Max then u - TwoTo32 else u
  }

  /** The declared transfer size: `BitConverter.ToInt32(buffer.Take(4).Reverse().ToArray(), 0)`. */
  function DeclaredSize(frame: seq<byte>): int
    requires |frame| >= 4
  {
    ToInt32LittleEndian(Reverse(frame[..4]))
  }

  /** The declared size is the first four bytes read as a big-endian signed 32-bit integer. */
  lemma DeclaredSizeIsBigEndianSigned(frame: seq<byte>)
    requires |frame| >= 4
    ensures DeclaredSize(frame)
         == 0x100_0000 * frame[0] as int + 0x1_0000 * frame[1] as int + 0x100 * frame[2] as int + frame[3] as int
            - (if frame[0] >= 0x80 then TwoTo32 else 0)
  {
    var r := Reverse(frame[..4]);
    assert r[0] == frame[3] && r[1] == frame[2] && r[2] == frame[1] && r[3] == frame[0];
  }

  /** A size is negative exactly when the first byte has its top bit set. */
  lemma DeclaredSizeNegativeIffHighBit(frame: seq<byte>)
    requires |frame| >= 4
    ensures DeclaredSize(frame) < 0 <==> frame[0] >= 0x80
  {
    DeclaredSizeIsBigEndianSigned(frame);
  }

  /** How a sender writes a 32-bit size in front of its payload: big-endian two's complement. */
  function EncodeInt32BigEndian(n: int): (b: seq<byte>)
    requires Int32Min <= n <= Int32Max
    ensures |b| == 4
  {
    var u := if n < 0 then n + TwoTo32 else n;
    [(u / 0x100_0000) as byte, (u / 0x1_0000 % 0x100) as byte, (u / 0x100 % 0x100) as byte, (u % 0x100) as byte]
  }

  lemma {:induction false} DigitsOf(u: int)
    requires 0 <= u < TwoTo32
    ensures u == 0x100_0000 * (u / 0x100_0000) + 0x1_0000 * (u / 0x1_0000 % 0x100)
                 + 0x100 * (u / 0x100 % 0x100) + u % 0x100
  {
    var q1 := u / 0x100;
    var q2 := q1 / 0x100;
    assert u / 0x1_0000 == q2;
    assert u / 0x100_0000 == q2 / 0x100;
  }

  /** Decoding the header a sender wrote gives back the size it declared, whatever follows. */
  lemma DeclaredSizeOfEncoded(n: int, rest: seq<byte>)
    requires Int32Min <= n <= Int32Max
    ensures DeclaredSize(EncodeInt32BigEndian(n) + rest) == n
  {
    var h := EncodeInt32BigEndian(n) + rest;
    var u := if n < 0 then n + TwoTo32 else n;
    DigitsOf(u);
    DeclaredSizeIsBigEndianSigned(h);
    assert h[0] == (u / 0x100_0000) as byte;
    assert h[0] >= 0x80 <==> u > Int32Max;
  }

  /** Every four-byte header is the encoding of the size it declares. */
  lemma EncodedOfDeclaredSize(frame: seq<byte>)
    requires |frame| >= 4
    ensures EncodeInt32BigEndian(DeclaredSize(frame)) == frame[..4]
  {
    DeclaredSizeIsBigEndianSigned(frame);
    var n := DeclaredSize(frame);
    var u := if n < 0 then n + TwoTo32 else n;
    var b0, b1, b2, b3 := frame[0] as int, frame[1] as int, frame[2] as int, frame[3] as int;
    assert u == 0x100_0000 * b0 + 0x1_0000 * b1 + 0x100 * b2 + b3;
    assert u % 0x100 == b3 && u / 0x100 == 0x1_0000 * b0 + 0x100 * b1 + b2;
    var v := u / 0x100;
    assert v % 0x100 == b2 && v / 0x100 == 0x100 * b0 + b1;
    var w := v / 0x100;
    assert w % 0x100 == b1 && w / 0x100 == b0;
    assert u / 0x1_0000 == w;
    assert u / 0x100_0000 == b0;
    var e := EncodeInt32BigEndian(n);
    assert e[0] == frame[0] && e[1] == frame[1] && e[2] == frame[2] && e[3] == frame[3];
  }
}
