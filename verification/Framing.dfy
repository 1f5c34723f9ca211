/** Length-prefixed frames: the 8-byte header of common/src/tcp_struct.h (two little-endian
    32-bit ints, type and payload size) and the greedy parsers of the two notify classes. */
module Framing {

  type Byte = x: int | 0 <= x < 256

  datatype Frame = Frame(kind: int, payload: seq<Byte>)

  const HEADER := 8

  predicate Int32(v: int) {
    -0x8000_0000 <= v < 0x8000_0000
  }

  // ---------------------------------------------------------------- 32-bit integers in memory

  /** A C++ conversion to `int` of a value computed modulo 2^64. */
  function Cast32(x: int): (v: int)
    ensures Int32(v)
  {
    var u := x % 0x1_0000_0000;
    if u >= 0x8000_0000 then u - 0x1_0000_0000 else u
  }

  function ReadInt(b: seq<Byte>): (v: int)
    requires |b| == 4
    ensures Int32(v)
  {
    var b0: int, b1: int, b2: int, b3: int := b[0], b[1], b[2], b[3];
    Cast32(b0 + 256 * b1 + 65536 * b2 + 16777216 * b3)
  }

  function WriteInt(v: int): (b: seq<Byte>)
    requires Int32(v)
    ensures |b| == 4
  {
    var u := v % 0x1_0000_0000;
    var u1 := u / 256;
    var u2 := u1 / 256;
    [u % 256, u1 % 256, u2 % 256, u2 / 256]
  }

  lemma IntRoundTrip(v: int)
    requires Int32(v)
    ensures ReadInt(WriteInt(v)) == v
  {
    var u := v % 0x1_0000_0000;
    FourBytes(u);
    OnlyModulo(v);
  }

  lemma FourBytes(u: nat)
    ensures u % 256 + 256 * (u / 256 % 256) + 65536 * (u / 256 / 256 % 256) + 16777216 * (u / 256 / 256 / 256) == u
  {
    var u1, u2 := u / 256, u / 256 / 256;
    assert u == 256 * u1 + u % 256;
    assert u1 == 256 * u2 + u1 % 256;
    assert u2 == 256 * (u2 / 256) + u2 % 256;
  }

  lemma OnlyModulo(v: int)
    requires Int32(v)
    ensures Cast32(v % 0x1_0000_0000) == v
  {
  }

  /** What bytes mean when the first is the least significant. */
  function LittleEndian(b: seq<Byte>): (n: nat)
    decreases |b|
  {
    if b == [] then 0 else b[0] + 256 * LittleEndian(b[1..])
  }

  /** An `int` in memory: its low byte first, in two's complement. */
  lemma IntInMemory(b: seq<Byte>, v: int)
    requires |b| == 4 && Int32(v)
    ensures ReadInt(b) == if LittleEndian(b) < 0x8000_0000 then LittleEndian(b) else LittleEndian(b) - 0x1_0000_0000
    ensures LittleEndian(WriteInt(v)) == if v >= 0 then v else v + 0x1_0000_0000
  {
    FourDigits(b);
    FourDigits(WriteInt(v));
    FourBytes(v % 0x1_0000_0000);
  }

  lemma FourDigits(b: seq<Byte>)
    requires |b| == 4
    ensures var b0: int, b1: int, b2: int, b3: int := b[0], b[1], b[2], b[3];
      LittleEndian(b) == b0 + 256 * b1 + 65536 * b2 + 16777216 * b3 < 0x1_0000_0000
  {
    var c, d, e := b[1..], b[2..], b[3..];
    assert c[1..] == d && d[1..] == e && e[1..] == [];
    assert LittleEndian(d) == d[0] + 256 * LittleEndian(e);
  }

  // ---------------------------------------------------------------- the greedy parse

  function Size(b: seq<Byte>): int
    requires |b| >= HEADER
  {
    ReadInt(b[4..8])
  }

  /** A whole frame with a positive payload size stands at the front of b. */
  predicate Complete(b: seq<Byte>) {
    |b| > HEADER && Size(b) > 0 && |b| >= HEADER + Size(b)
  }

  /** The same test as the parsers write it, with their conversions to `int`. */
  predicate TestedAsInt(b: seq<Byte>) {
    && Cast32(|b|) > Cast32(HEADER)
    && |b| >= HEADER && Size(b) > 0
    && Cast32(|b| - HEADER - Size(b)) >= 0
  }

  lemma IntTestIsComplete(b: seq<Byte>)
    requires |b| < 0x8000_0000
    ensures TestedAsInt(b) <==> Complete(b)
  {
  }

  function Length(b: seq<Byte>): (n: nat)
    requires Complete(b)
    ensures HEADER < n <= |b|
  {
    HEADER + Size(b)
  }

  function Head(b: seq<Byte>): Frame
    requires Complete(b)
  {
    Frame(ReadInt(b[..4]), b[HEADER..Length(b)])
  }

  /** All frames at the front of b, one after the other. */
  function Parse(b: seq<Byte>): seq<Frame>
    decreases |b|
  {
    if Complete(b) then [Head(b)] + Parse(b[Length(b)..]) else []
  }

  /** What remains of b behind those frames. */
  function Rest(b: seq<Byte>): (r: seq<Byte>)
    ensures |r| <= |b|
    decreases |b|
  {
    if Complete(b) then Rest(b[Length(b)..]) else b
  }

  /** More bytes behind a whole frame do not change it. */
  lemma CompleteExtends(b: seq<Byte>, more: seq<Byte>)
    requires Complete(b)
    ensures Complete(b + more) && Length(b + more) == Length(b) && Head(b + more) == Head(b)
    ensures (b + more)[Length(b)..] == b[Length(b)..] + more
  {
    assert (b + more)[4..8] == b[4..8];
    assert (b + more)[..4] == b[..4];
    assert (b + more)[HEADER..Length(b)] == b[HEADER..Length(b)];
  }

  /** A frame that is whole in a prefix is whole, with the same length, in all of it. */
  lemma WholeInPrefix(b: seq<Byte>, more: seq<Byte>)
    ensures Complete(b) ==> Complete(b + more) && Length(b + more) <= |b|
  {
    if Complete(b) {
      CompleteExtends(b, more);
    }
  }

  /** Parsing is incremental: parse what is there, later parse the rest with what follows. */
  lemma {:induction false} ParseExtends(b: seq<Byte>, more: seq<Byte>)
    ensures Parse(b + more) == Parse(b) + Parse(Rest(b) + more)
    decreases |b|
  {
    hide Complete, Length, Head;
    if Complete(b) {
      CompleteExtends(b, more);
      ParseExtends(b[Length(b)..], more);
      assert Parse(b + more) == [Head(b)] + Parse(b[Length(b)..] + more);
    }
  }

  lemma {:induction false} RestExtends(b: seq<Byte>, more: seq<Byte>)
    ensures Rest(b + more) == Rest(Rest(b) + more)
    decreases |b|
  {
    hide Complete, Length, Head;
    if Complete(b) {
      CompleteExtends(b, more);
      RestExtends(b[Length(b)..], more);
    }
  }

  /** The rest is a suffix that does not start with a whole frame. */
  lemma {:induction false} RestIsSuffix(b: seq<Byte>)
    ensures Rest(b) == b[|b| - |Rest(b)|..] && !Complete(Rest(b)) && Parse(Rest(b)) == []
    decreases |b|
  {
    hide Complete, Length, Head;
    if Complete(b) {
      RestIsSuffix(b[Length(b)..]);
    }
  }

  // ---------------------------------------------------------------- the encoder

  /** What a sender can write. */
  predicate Encodable(f: Frame) {
    Int32(f.kind) && |f.payload| < 0x8000_0000
  }

  predicate WellFormed(f: Frame) {
    Encodable(f) && f.payload != []
  }

  predicate AllEncodable(fs: seq<Frame>) {
    forall f :: f in fs ==> Encodable(f)
  }

  function Encode(f: Frame): (b: seq<Byte>)
    requires Encodable(f)
    ensures |b| == HEADER + |f.payload|
  {
    WriteInt(f.kind) + WriteInt(|f.payload|) + f.payload
  }

  function EncodeAll(fs: seq<Frame>): (b: seq<Byte>)
    requires AllEncodable(fs)
  {
    if fs == [] then [] else Encode(fs[0]) + EncodeAll(fs[1..])
  }

  /** The header: type, then payload size, four bytes each. */
  lemma Layout(f: Frame)
    requires Encodable(f)
    ensures var b := Encode(f);
      && ReadInt(b[..4]) == f.kind && LittleEndian(b[4..8]) == |f.payload| && b[8..] == f.payload
  {
    var b := Encode(f);
    IntRoundTrip(f.kind);
    IntInMemory(b[4..8], |f.payload|);
    assert b[..4] == WriteInt(f.kind) && b[4..8] == WriteInt(|f.payload|);
  }

  lemma EncodeIsComplete(f: Frame, more: seq<Byte>)
    requires WellFormed(f)
    ensures var b := Encode(f) + more;
      Complete(b) && Length(b) == |Encode(f)| && Head(b) == f && b[Length(b)..] == more
  {
    var b := Encode(f) + more;
    IntRoundTrip(f.kind);
    IntRoundTrip(|f.payload|);
    assert b[..4] == WriteInt(f.kind);
    assert b[4..8] == WriteInt(|f.payload|);
    assert b[8..8 + |f.payload|] == f.payload;
  }

  /** A frame with an empty payload is never parsed, and nothing behind it is either. */
  lemma EmptyFrameStalls(f: Frame, more: seq<Byte>)
    requires Encodable(f) && f.payload == []
    ensures Parse(Encode(f) + more) == [] && Rest(Encode(f) + more) == Encode(f) + more
  {
    var b := Encode(f) + more;
    IntRoundTrip(0);
    assert b[4..8] == WriteInt(0);
  }

  /** Round trip: parsing what was encoded gives back the frames before the first empty one;
      all of them, with nothing left over, iff none is empty. */
  lemma {:induction false} ParseEncoded(fs: seq<Frame>)
    requires AllEncodable(fs)
    ensures var got := Parse(EncodeAll(fs));
      && got <= fs && (forall f :: f in got ==> f.payload != []) && (|got| < |fs| ==> fs[|got|].payload == [])
    ensures Rest(EncodeAll(fs)) == [] <==> forall f :: f in fs ==> f.payload != []
    decreases |fs|
  {
    if fs != [] {
      var tail := EncodeAll(fs[1..]);
      if fs[0].payload == [] {
        EmptyFrameStalls(fs[0], tail);
      } else {
        EncodeIsComplete(fs[0], tail);
        ParseEncoded(fs[1..]);
        assert Parse(EncodeAll(fs)) == [fs[0]] + Parse(tail);
        assert fs == [fs[0]] + fs[1..];
      }
    }
  }

  /** What is left over of the beginning of an encoded stream is less than one frame of it. */
  lemma {:induction false} RestIsPartialFrame(fs: seq<Frame>, n: nat, longest: nat)
    requires AllEncodable(fs) && forall f :: f in fs ==> f.payload != [] && HEADER + |f.payload| <= longest
    requires n <= |EncodeAll(fs)|
    ensures |Rest(EncodeAll(fs)[..n])| < longest || n == 0
    decreases |fs|
  {
    hide Complete, Length, Head, Encode;
    if fs != [] {
      var b, len := EncodeAll(fs), |Encode(fs[0])|;
      EncodeIsComplete(fs[0], EncodeAll(fs[1..]));
      if n >= len {
        assert b[..n] == Encode(fs[0]) + EncodeAll(fs[1..])[..n - len];
        EncodeIsComplete(fs[0], EncodeAll(fs[1..])[..n - len]);
        RestIsPartialFrame(fs[1..], n - len, longest);
      } else {
        assert b[..n] == Encode(fs[0])[..n];
        TruncatedIsIncomplete(fs[0], n);
      }
    }
  }

  lemma TruncatedIsIncomplete(f: Frame, n: nat)
    requires WellFormed(f) && n < |Encode(f)|
    ensures !Complete(Encode(f)[..n])
  {
    EncodeIsComplete(f, []);
    assert Encode(f) + [] == Encode(f) == Encode(f)[..n] + Encode(f)[n..];
    WholeInPrefix(Encode(f)[..n], Encode(f)[n..]);
  }

  // ---------------------------------------------------------------- parsing with a callback

  /** Answers of the `on_read` callback, by the number of earlier calls. */
  type Answers = nat -> bool

  datatype Outcome = Outcome(frames: seq<Frame>, used: nat, calls: nat)

  /** What one call of the parser does: hand frames to the callback until one is refused
      or none is complete; count the bytes of the accepted ones. */
  function Handle(b: seq<Byte>, answers: Answers, calls: nat): (o: Outcome)
    ensures o.used <= |b|
    decreases |b|
  {
    if !Complete(b) then Outcome([], 0, calls)
    else if !answers(calls) then Outcome([], 0, calls + 1)
    else
      var o := Handle(b[Length(b)..], answers, calls + 1);
      Outcome([Head(b)] + o.frames, Length(b) + o.used, o.calls)
  }

  /** Accepted frames and unused bytes together account for the whole parse, however the
      stream goes on. */
  lemma {:induction false} HandleIsParse(b: seq<Byte>, answers: Answers, calls: nat, more: seq<Byte>)
    ensures var o := Handle(b, answers, calls); Parse(b + more) == o.frames + Parse(b[o.used..] + more)
    decreases |b|
  {
    hide Complete, Length, Head;
    var o := Handle(b, answers, calls);
    if Complete(b) && answers(calls) {
      var tail := b[Length(b)..];
      var o' := Handle(tail, answers, calls + 1);
      HandleIsParse(tail, answers, calls + 1, more);
      CompleteExtends(b, more);
      assert b[o.used..] == tail[o'.used..];
      assert Parse(b + more) == [Head(b)] + Parse(tail + more);
      assert o.frames == [Head(b)] + o'.frames;
    } else {
      assert o.frames == [] && b[o.used..] == b;
    }
  }

  /** When the callback refuses nothing, nothing complete is left. */
  lemma {:induction false} WillingHandle(b: seq<Byte>, answers: Answers, calls: nat)
    requires forall i :: answers(i)
    ensures var o := Handle(b, answers, calls); o.frames == Parse(b) && b[o.used..] == Rest(b)
    decreases |b|
  {
    hide Complete, Length, Head;
    var o := Handle(b, answers, calls);
    if Complete(b) {
      var tail := b[Length(b)..];
      var o' := Handle(tail, answers, calls + 1);
      WillingHandle(tail, answers, calls + 1);
      assert b[o.used..] == tail[o'.used..];
      assert o.frames == [Head(b)] + o'.frames;
    } else {
      assert b[o.used..] == b;
    }
  }

  /** Which frames one call accepts: those before the first the callback refuses. Each is
      offered once, in order, and so is the refused one, which will be offered again. */
  lemma {:induction false} HandleTakes(b: seq<Byte>, answers: Answers, calls: nat)
    ensures var o, all := Handle(b, answers, calls), Parse(b);
      var n := |o.frames|;
      && o.frames <= all && (forall i :: calls <= i < calls + n ==> answers(i))
      && (n < |all| ==> !answers(calls + n))
      && o.calls == calls + n + (if n < |all| then 1 else 0)
      && Parse(b[o.used..]) == all[n..]
    decreases |b|
  {
    hide Complete, Length, Head;
    var o := Handle(b, answers, calls);
    if Complete(b) && answers(calls) {
      var tail := b[Length(b)..];
      var o' := Handle(tail, answers, calls + 1);
      HandleTakes(tail, answers, calls + 1);
      assert b[o.used..] == tail[o'.used..];
      assert Parse(b)[|o.frames|..] == Parse(tail)[|o'.frames|..];
    } else {
      assert b[o.used..] == b;
    }
  }

  // ---------------------------------------------------------------- for the parsers' loops

  /** One round of a parser's loop at position pos: what its tests say about the bytes
      that follow, and how `Handle` goes on. */
  lemma LoopRound(b: seq<Byte>, pos: nat, answers: Answers, calls: nat)
    requires pos <= |b| < 0x8000_0000
    ensures Cast32(|b| - pos) == |b| - pos
    ensures |b| - pos <= HEADER ==> Handle(b[pos..], answers, calls) == Outcome([], 0, calls)
    ensures |b| - pos > HEADER ==>
      var size := ReadInt(b[pos + 4..pos + 8]);
      if size <= 0 || Cast32(|b| - pos - HEADER - size) < 0 then
        Handle(b[pos..], answers, calls) == Outcome([], 0, calls)
      else if !answers(calls) then
        Handle(b[pos..], answers, calls) == Outcome([], 0, calls + 1)
      else
        && pos + HEADER + size <= |b|
        && var frame := Frame(ReadInt(b[pos..pos + 4]), b[pos + HEADER..pos + HEADER + size]);
           var o := Handle(b[pos + HEADER + size..], answers, calls + 1);
           Handle(b[pos..], answers, calls) == Outcome([frame] + o.frames, HEADER + size + o.used, o.calls)
  {
    var tail := b[pos..];
    LoopTest(tail);
    CastAbove(|tail|);
    HandleOnce(tail, answers, calls);
    if |tail| > HEADER {
      var size := ReadInt(tail[4..8]);
      assert tail[4..8] == b[pos + 4..pos + 8] && tail[..4] == b[pos..pos + 4];
      if size > 0 && |tail| - HEADER - size >= 0 {
        assert tail[HEADER..HEADER + size] == b[pos + HEADER..pos + HEADER + size];
        assert tail[HEADER + size..] == b[pos + HEADER + size..];
      }
    }
  }

  /** One round of `Handle`. */
  lemma HandleOnce(b: seq<Byte>, answers: Answers, calls: nat)
    ensures Handle(b, answers, calls) ==
      if !Complete(b) then Outcome([], 0, calls)
      else if !answers(calls) then Outcome([], 0, calls + 1)
      else var o := Handle(b[Length(b)..], answers, calls + 1);
           Outcome([Head(b)] + o.frames, Length(b) + o.used, o.calls)
  {
    hide Complete, Length, Head;
  }

  /** The parser's loop test, on the bytes from the read position on. */
  lemma LoopTest(b: seq<Byte>)
    requires |b| < 0x8000_0000
    ensures Cast32(|b|) <= HEADER ==> !Complete(b)
    ensures Cast32(|b|) > HEADER ==>
      var size := ReadInt(b[4..8]);
      && (Complete(b) <==> size > 0 && Cast32(|b| - HEADER - size) >= 0)
      && (Complete(b) ==> Length(b) == HEADER + size && Head(b) == Frame(ReadInt(b[..4]), b[HEADER..HEADER + size]))
  {
    if |b| >= HEADER {
      IntTestIsComplete(b);
    }
  }

  lemma CastAbove(n: nat)
    requires n < 0x8000_0000
    ensures Cast32(n) == n
  {
  }
}
