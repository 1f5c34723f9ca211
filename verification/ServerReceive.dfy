/** The server's receive path: `cellManager::doRecv` with its compacting buffer
    (base/src/tcp_server/cell_manager.cpp) around the frame parser of
    common/src/tcp_server_notify.cpp. */
module ServerReceive {
  import opened Framing

  /** The unread bytes and the buffer position they start at. */
  datatype Rx = Rx(start: nat, unread: seq<Byte>)

  datatype Session = Session(rx: Rx, accepted: seq<Frame>, calls: nat)

  const FRESH := Session(Rx(0, []), [], 0)

  function End(s: Session): nat {
    s.rx.start + |s.rx.unread|
  }

  /** No room is left: the receive loop will not read again. */
  predicate Jammed(B: nat, s: Session) {
    End(s) >= B
  }

  function Compact(B: nat, start: nat, unread: seq<Byte>): Rx {
    if unread == [] then Rx(0, [])
    else if start >= B / 2 then Rx(0, unread)
    else Rx(start, unread)
  }

  /** One read and what the loop does with it. */
  function Receive(B: nat, s: Session, chunk: seq<Byte>, answers: Answers): Session {
    var b := s.rx.unread + chunk;
    var o := Handle(b, answers, s.calls);
    Session(Compact(B, s.rx.start + o.used, b[o.used..]), s.accepted + o.frames, o.calls)
  }

  /** Some bytes, no more than there is room for. */
  predicate Fits(B: nat, s: Session, chunk: seq<Byte>) {
    0 < |chunk| <= B - End(s)
  }

  predicate AllFit(B: nat, s: Session, chunks: seq<seq<Byte>>, answers: Answers)
    decreases |chunks|
  {
    chunks == [] || (Fits(B, s, chunks[0]) && AllFit(B, Receive(B, s, chunks[0], answers), chunks[1..], answers))
  }

  function Feed(B: nat, s: Session, chunks: seq<seq<Byte>>, answers: Answers): Session
    decreases |chunks|
  {
    if chunks == [] then s else Feed(B, Receive(B, s, chunks[0], answers), chunks[1..], answers)
  }

  function Concat(chunks: seq<seq<Byte>>): seq<Byte> {
    if chunks == [] then [] else chunks[0] + Concat(chunks[1..])
  }

  // ---------------------------------------------------------------- what was accepted

  /** `all` has been read: what was accepted and what is unread account for its parse,
      however the stream goes on. */
  ghost predicate Accounts(s: Session, all: seq<Byte>) {
    forall more :: Parse(all + more) == s.accepted + Parse(s.rx.unread + more)
  }

  lemma ReceiveAccounts(B: nat, s: Session, all: seq<Byte>, chunk: seq<Byte>, answers: Answers)
    requires Accounts(s, all)
    ensures Accounts(Receive(B, s, chunk, answers), all + chunk)
  {
    hide Complete, Length, Head, Parse, Handle;
    var b := s.rx.unread + chunk;
    var o := Handle(b, answers, s.calls);
    forall more ensures Parse(all + chunk + more) == s.accepted + o.frames + Parse(b[o.used..] + more) {
      assert all + chunk + more == all + (chunk + more);
      assert s.rx.unread + (chunk + more) == b + more;
      HandleIsParse(b, answers, s.calls, more);
    }
  }

  lemma {:induction false} FeedAccounts(B: nat, s: Session, all: seq<Byte>, chunks: seq<seq<Byte>>, answers: Answers)
    requires Accounts(s, all)
    ensures Accounts(Feed(B, s, chunks, answers), all + Concat(chunks))
    decreases |chunks|
  {
    hide Complete, Length, Head;
    if chunks == [] {
      assert all + Concat(chunks) == all;
    } else {
      ReceiveAccounts(B, s, all, chunks[0], answers);
      FeedAccounts(B, Receive(B, s, chunks[0], answers), all + chunks[0], chunks[1..], answers);
      assert all + Concat(chunks) == all + chunks[0] + Concat(chunks[1..]);
    }
  }

  /** A callback that never refuses leaves no whole frame unread. */
  lemma {:induction false} WillingFeed(B: nat, s: Session, chunks: seq<seq<Byte>>, answers: Answers)
    requires (forall i :: answers(i)) && !Complete(s.rx.unread)
    ensures !Complete(Feed(B, s, chunks, answers).rx.unread)
    decreases |chunks|
  {
    hide Complete, Length, Head;
    if chunks != [] {
      var b := s.rx.unread + chunks[0];
      WillingHandle(b, answers, s.calls);
      RestIsSuffix(b);
      EmptyIsIncomplete();
      WillingFeed(B, Receive(B, s, chunks[0], answers), chunks[1..], answers);
    }
  }

  lemma EmptyIsIncomplete()
    ensures !Complete([])
  {
  }

  lemma NothingAccounts()
    ensures Accounts(FRESH, []) && !Complete([]) && Parse([]) == []
  {
    forall more: seq<Byte> ensures Parse([] + more) == FRESH.accepted + Parse(FRESH.rx.unread + more) {
      assert FRESH.accepted + Parse([] + more) == Parse([] + more);
    }
  }

  lemma AccountsNow(rx: Session, all: seq<Byte>)
    requires Accounts(rx, all)
    ensures Parse(all) == rx.accepted + Parse(rx.rx.unread)
    ensures !Complete(rx.rx.unread) ==> Parse(rx.rx.unread) == []
  {
    assert all + [] == all && rx.rx.unread + [] == rx.rx.unread;
  }

  /** Main theorem: whatever the cut into reads and whatever the callback refuses, the
      accepted frames are a prefix of the greedy parse of everything read, each once and
      in order; all of it, if nothing is refused. */
  lemma AcceptedIsParse(B: nat, chunks: seq<seq<Byte>>, answers: Answers)
    ensures Feed(B, FRESH, chunks, answers).accepted <= Parse(Concat(chunks))
    ensures (forall i :: answers(i)) ==> Feed(B, FRESH, chunks, answers).accepted == Parse(Concat(chunks))
  {
    hide Complete, Length, Head, Parse, Feed, Accounts;
    var s, all := Feed(B, FRESH, chunks, answers), Concat(chunks);
    NothingAccounts();
    FeedAccounts(B, FRESH, [], chunks, answers);
    assert [] + all == all;
    AccountsNow(s, all);
    if forall i :: answers(i) {
      WillingFeed(B, FRESH, chunks, answers);
    }
  }

  /** What is delivered does not depend on how the network cut the stream. */
  lemma ChunkingDoesNotMatter(B: nat, chunks: seq<seq<Byte>>, chunks': seq<seq<Byte>>, answers: Answers)
    requires (forall i :: answers(i)) && Concat(chunks) == Concat(chunks')
    ensures Feed(B, FRESH, chunks, answers).accepted == Feed(B, FRESH, chunks', answers).accepted
  {
    AcceptedIsParse(B, chunks, answers);
    AcceptedIsParse(B, chunks', answers);
  }

  /** Frames sent with the encoder arrive as they were sent, under every cut, up to the first
      with an empty payload: all of them, iff there is none. */
  lemma SentIsReceived(B: nat, fs: seq<Frame>, chunks: seq<seq<Byte>>, answers: Answers)
    requires AllEncodable(fs) && (forall i :: answers(i))
    requires Concat(chunks) == EncodeAll(fs)
    ensures var got := Feed(B, FRESH, chunks, answers).accepted;
      && got <= fs && (|got| < |fs| ==> fs[|got|].payload == [])
      && (got == fs <==> forall f :: f in fs ==> f.payload != [])
  {
    hide Parse, Feed;
    AcceptedIsParse(B, chunks, answers);
    ParseEncoded(fs);
  }

  // ---------------------------------------------------------------- when the buffer jams

  /** Every frame takes at most F bytes, header included. */
  predicate AtMost(F: nat, fs: seq<Frame>) {
    forall f :: f in fs ==> WellFormed(f) && HEADER + |f.payload| <= F
  }

  /** The unread bytes are the rest of what was read, and the buffer is not full. */
  ghost predicate Healthy(B: nat, s: Session, all: seq<Byte>) {
    s.rx.unread == Rest(all) && !Jammed(B, s) && (s.rx.unread != [] ==> s.rx.start < B / 2)
  }

  lemma ReceiveHealthy(B: nat, F: nat, fs: seq<Frame>, s: Session, all: seq<Byte>, chunk: seq<Byte>, answers: Answers)
    requires B >= 2 && B % 2 == 0 && F <= B / 2 + 1 && AtMost(F, fs) && (forall i :: answers(i))
    requires Healthy(B, s, all) && Fits(B, s, chunk) && all + chunk <= EncodeAll(fs)
    ensures Healthy(B, Receive(B, s, chunk, answers), all + chunk)
  {
    hide Complete, Length, Head;
    var b := s.rx.unread + chunk;
    var o := Handle(b, answers, s.calls);
    WillingHandle(b, answers, s.calls);
    RestExtends(all, chunk);
    var n := |all + chunk|;
    assert EncodeAll(fs)[..n] == all + chunk;
    RestIsPartialFrame(fs, n, F);
  }

  lemma {:induction false} FeedHealthy(
    B: nat, F: nat, fs: seq<Frame>, s: Session, all: seq<Byte>, chunks: seq<seq<Byte>>, answers: Answers)
    requires B >= 2 && B % 2 == 0 && F <= B / 2 + 1 && AtMost(F, fs) && (forall i :: answers(i))
    requires Healthy(B, s, all) && AllFit(B, s, chunks, answers) && all + Concat(chunks) <= EncodeAll(fs)
    ensures Healthy(B, Feed(B, s, chunks, answers), all + Concat(chunks))
    decreases |chunks|
  {
    hide Complete, Length, Head, Receive, Rest;
    if chunks == [] {
      assert all + Concat(chunks) == all;
    } else {
      var more := all + chunks[0];
      assert all + Concat(chunks) == more + Concat(chunks[1..]);
      assert more <= EncodeAll(fs);
      ReceiveHealthy(B, F, fs, s, all, chunks[0], answers);
      FeedHealthy(B, F, fs, Receive(B, s, chunks[0], answers), more, chunks[1..], answers);
    }
  }

  /** A buffer of B bytes serves every stream of frames up to F bytes, in every chunking. */
  ghost predicate NeverJams(B: nat, F: nat) {
    forall fs, chunks, answers: Answers ::
      AtMost(F, fs) && (forall i :: answers(i)) && AllFit(B, FRESH, chunks, answers) && Concat(chunks) <= EncodeAll(fs)
      ==> !Jammed(B, Feed(B, FRESH, chunks, answers))
  }

  function Filler(n: nat): (f: Frame)
    requires 0 < n < 0x8000_0000
    ensures WellFormed(f) && |f.payload| == n
  {
    Frame(0, seq(n, i => 0))
  }

  /** One frame just short of half the buffer, then the beginning of one two bytes longer
      than half, in a single read that fills the buffer. */
  lemma TooLongJams(B: nat) returns (fs: seq<Frame>, chunk: seq<Byte>)
    requires B % 2 == 0 && 20 <= B < 0x8000_0000
    ensures AtMost(B / 2 + 2, fs) && chunk <= EncodeAll(fs)
    ensures forall answers: Answers :: (forall i :: answers(i)) ==>
              AllFit(B, FRESH, [chunk], answers) && Jammed(B, Feed(B, FRESH, [chunk], answers))
  {
    var f, g := Filler(B / 2 - 9), Filler(B / 2 - 6);
    fs := [f, g];
    var stream := EncodeAll(fs);
    assert EncodeAll(fs[1..]) == Encode(g) + EncodeAll([]);
    assert stream == Encode(f) + Encode(g);
    chunk := stream[..B];
    var tail := Encode(g)[..B / 2 + 1];
    assert chunk == Encode(f) + tail;
    EncodeIsComplete(f, tail);
    assert !Complete(tail) by { TruncatedIsIncomplete(g, B / 2 + 1); }
    forall answers: Answers | forall i :: answers(i)
      ensures AllFit(B, FRESH, [chunk], answers) && Jammed(B, Feed(B, FRESH, [chunk], answers))
    {
      OneFrameThenTail(B, f, tail, answers);
      assert AllFit(B, Receive(B, FRESH, chunk, answers), [], answers);
      assert [chunk][1..] == [];
    }
  }

  lemma OneFrameThenTail(B: nat, f: Frame, tail: seq<Byte>, answers: Answers)
    requires WellFormed(f) && !Complete(tail) && tail != [] && (forall i :: answers(i)) && |Encode(f)| < B / 2
    ensures Receive(B, FRESH, Encode(f) + tail, answers).rx == Rx(|Encode(f)|, tail)
  {
    hide Complete, Length, Head;
    var b := Encode(f) + tail;
    EncodeIsComplete(f, tail);
    assert FRESH.rx.unread + b == b;
    assert Handle(tail, answers, 1).used == 0;
    assert Handle(b, answers, 0).used == |Encode(f)|;
  }

  /** Main theorem: the sharp bound.  With a buffer of B bytes no chunking jams the receive
      loop iff frames are at most B / 2 + 1 bytes, header included. */
  lemma NeverJamsIff(B: nat, F: nat)
    requires B % 2 == 0 && 20 <= B < 0x8000_0000
    ensures NeverJams(B, F) <==> F <= B / 2 + 1
  {
    if F <= B / 2 + 1 {
      forall fs, chunks, answers: Answers |
        AtMost(F, fs) && (forall i :: answers(i)) && AllFit(B, FRESH, chunks, answers) && Concat(chunks) <= EncodeAll(fs)
        ensures !Jammed(B, Feed(B, FRESH, chunks, answers))
      {
        EmptyIsIncomplete();
        assert [] + Concat(chunks) == Concat(chunks);
        FeedHealthy(B, F, fs, FRESH, [], chunks, answers);
      }
    } else {
      var fs, chunk := TooLongJams(B);
      var answers: Answers := i => true;
      assert Concat([chunk]) == chunk + Concat([]) == chunk;
      assert AtMost(F, fs);
      assert Jammed(B, Feed(B, FRESH, [chunk], answers));
    }
  }

  // ---------------------------------------------------------------- one frame at a time

  /** Whenever reads leave nothing unread, the whole buffer is free again. */
  lemma {:induction false} NothingUnreadFreesAll(B: nat, s: Session, chunks: seq<seq<Byte>>, answers: Answers)
    requires s.rx.unread == [] ==> End(s) == 0
    ensures var s' := Feed(B, s, chunks, answers); s'.rx.unread == [] ==> End(s') == 0
    decreases |chunks|
  {
    hide Handle;
    if chunks != [] {
      NothingUnreadFreesAll(B, Receive(B, s, chunks[0], answers), chunks[1..], answers);
    }
  }

  predicate NonEmpty(chunks: seq<seq<Byte>>) {
    forall i :: 0 <= i < |chunks| ==> chunks[i] != []
  }

  /** Into an empty buffer goes a frame as long as the buffer, under every cut: all its pieces
      fit, and the frame is accepted when the last one has come. */
  lemma {:induction false} FrameTaken(B: nat, s: Session, f: Frame, chunks: seq<seq<Byte>>, answers: Answers)
    requires WellFormed(f) && |Encode(f)| <= B && NonEmpty(chunks) && (forall i :: answers(i))
    requires s.rx.start == 0 && s.rx.unread + Concat(chunks) <= Encode(f) && |s.rx.unread| < |Encode(f)|
    ensures AllFit(B, s, chunks, answers)
    ensures var all := s.rx.unread + Concat(chunks);
      Feed(B, s, chunks, answers) == if all == Encode(f) then Session(Rx(0, []), s.accepted + [f], s.calls + 1)
                                     else s.(rx := Rx(0, all))
    decreases |chunks|
  {
    hide Encode, Receive;
    if chunks == [] {
      assert s.rx.unread + Concat(chunks) == s.rx.unread;
    } else {
      var b := s.rx.unread + chunks[0];
      assert s.rx.unread + Concat(chunks) == b + Concat(chunks[1..]);
      PieceTaken(B, s, f, chunks[0], answers);
      if b != Encode(f) {
        FrameTaken(B, Receive(B, s, chunks[0], answers), f, chunks[1..], answers);
      }
    }
  }

  lemma PieceTaken(B: nat, s: Session, f: Frame, chunk: seq<Byte>, answers: Answers)
    requires WellFormed(f) && (forall i :: answers(i))
    requires s.rx.start == 0 && s.rx.unread + chunk <= Encode(f) && chunk != []
    ensures var b := s.rx.unread + chunk;
      Receive(B, s, chunk, answers) == if b == Encode(f) then Session(Rx(0, []), s.accepted + [f], s.calls + 1)
                                       else s.(rx := Rx(0, b))
  {
    hide Complete, Length, Head, Encode;
    var b := s.rx.unread + chunk;
    if b == Encode(f) {
      EncodeIsComplete(f, []);
      assert Encode(f) + [] == Encode(f);
      EmptyIsIncomplete();
      HandleOnce(b, answers, s.calls);
      HandleOnce([], answers, s.calls + 1);
      assert [f] + [] == [f];
    } else {
      TruncatedIsIncomplete(f, |b|);
      assert b == Encode(f)[..|b|] && b[0..] == b && s.accepted + [] == s.accepted;
    }
  }

  /** A sender that waits: each frame comes in pieces of its own. */
  ghost predicate OneByOne(fs: seq<Frame>, cuts: seq<seq<seq<Byte>>>) {
    && |cuts| == |fs|
    && forall i :: 0 <= i < |fs| ==> WellFormed(fs[i]) && NonEmpty(cuts[i]) && Concat(cuts[i]) == Encode(fs[i])
  }

  function Joined(cuts: seq<seq<seq<Byte>>>): seq<seq<Byte>> {
    if cuts == [] then [] else cuts[0] + Joined(cuts[1..])
  }

  lemma {:induction false} FeedOn(B: nat, s: Session, chunks: seq<seq<Byte>>, more: seq<seq<Byte>>, answers: Answers)
    ensures Feed(B, s, chunks + more, answers) == Feed(B, Feed(B, s, chunks, answers), more, answers)
    ensures AllFit(B, s, chunks + more, answers) <==>
            AllFit(B, s, chunks, answers) && AllFit(B, Feed(B, s, chunks, answers), more, answers)
    decreases |chunks|
  {
    hide Receive, Fits;
    if chunks == [] {
      assert chunks + more == more;
    } else {
      FeedOn(B, Receive(B, s, chunks[0], answers), chunks[1..], more, answers);
      assert (chunks + more)[1..] == chunks[1..] + more;
    }
  }

  /** Such a sender is served whenever each frame by itself fits the buffer. */
  lemma {:induction false} WaitingIsServed(B: nat, s: Session, fs: seq<Frame>, cuts: seq<seq<seq<Byte>>>, answers: Answers)
    requires AtMost(B, fs) && OneByOne(fs, cuts) && (forall i :: answers(i)) && s.rx == Rx(0, [])
    ensures AllFit(B, s, Joined(cuts), answers)
    ensures Feed(B, s, Joined(cuts), answers) == Session(Rx(0, []), s.accepted + fs, s.calls + |fs|)
    decreases |fs|
  {
    hide Receive, Fits, Encode;
    if fs == [] {
      assert s.accepted + fs == s.accepted;
    } else {
      assert s.rx.unread + Concat(cuts[0]) == Encode(fs[0]);
      FrameTaken(B, s, fs[0], cuts[0], answers);
      var s' := Feed(B, s, cuts[0], answers);
      FeedOn(B, s, cuts[0], Joined(cuts[1..]), answers);
      WaitingIsServed(B, s', fs[1..], cuts[1..], answers);
      assert s.accepted + [fs[0]] + fs[1..] == s.accepted + fs;
    }
  }

  /** A buffer of B bytes serves every waiting sender of frames up to F bytes, at every moment:
      also when the pieces of one more frame have come in part. */
  ghost predicate ServesWaiting(B: nat, F: nat) {
    forall fs, cuts, f, part, answers: Answers ::
      AtMost(F, fs) && OneByOne(fs, cuts) && AtMost(F, [f]) && NonEmpty(part) && Concat(part) <= Encode(f) && (forall i :: answers(i))
      ==> AllFit(B, FRESH, Joined(cuts) + part, answers) && !Jammed(B, Feed(B, FRESH, Joined(cuts) + part, answers))
  }

  lemma PartIsServed(B: nat, fs: seq<Frame>, cuts: seq<seq<seq<Byte>>>, f: Frame, part: seq<seq<Byte>>, answers: Answers)
    requires B > 0 && AtMost(B, fs) && OneByOne(fs, cuts) && AtMost(B, [f]) && (forall i :: answers(i))
    requires NonEmpty(part) && WellFormed(f) && Concat(part) <= Encode(f)
    ensures AllFit(B, FRESH, Joined(cuts) + part, answers) && !Jammed(B, Feed(B, FRESH, Joined(cuts) + part, answers))
  {
    hide Feed, AllFit, Encode;
    WaitingIsServed(B, FRESH, fs, cuts, answers);
    var s := Feed(B, FRESH, Joined(cuts), answers);
    FeedOn(B, FRESH, Joined(cuts), part, answers);
    assert f in [f] && |Encode(f)| == HEADER + |f.payload|;
    assert s.rx.unread + Concat(part) == Concat(part);
    FrameTaken(B, s, f, part, answers);
  }

  /** Main theorem: a sender that waits for each frame to be taken is served, in every
      chunking, iff its frames are no longer than the buffer: twice what may be sent
      without waiting. */
  lemma ServesWaitingIff(B: nat, F: nat)
    requires HEADER <= B < 0x8000_0000
    ensures ServesWaiting(B, F) <==> F <= B
  {
    hide Feed, AllFit, Encode;
    if F <= B {
      forall fs, cuts, f, part, answers: Answers |
        AtMost(F, fs) && OneByOne(fs, cuts) && AtMost(F, [f]) && NonEmpty(part) && Concat(part) <= Encode(f) && (forall i :: answers(i))
        ensures AllFit(B, FRESH, Joined(cuts) + part, answers) && !Jammed(B, Feed(B, FRESH, Joined(cuts) + part, answers))
      {
        assert f in [f];
        PartIsServed(B, fs, cuts, f, part, answers);
      }
    } else {
      var f, answers: Answers := Filler(B - 7), i => true;
      var part := [Encode(f)[..B]];
      OversizeFills(B, f, answers);
      assert Joined([]) + part == part && AtMost(F, [f]) && AtMost(F, []) && OneByOne([], []);
      assert Concat(part) == part[0] + Concat([]) == part[0];
    }
  }

  /** A frame of B + 1 bytes fills the buffer before it is complete. */
  lemma OversizeFills(B: nat, f: Frame, answers: Answers)
    requires WellFormed(f) && |Encode(f)| == B + 1
    ensures Jammed(B, Feed(B, FRESH, [Encode(f)[..B]], answers))
  {
    hide Complete, Length, Head, Encode;
    var chunk := Encode(f)[..B];
    TruncatedIsIncomplete(f, B);
    assert FRESH.rx.unread + chunk == chunk && chunk[0..] == chunk;
    var none: seq<seq<Byte>> := [];
    assert [chunk][1..] == none;
  }
}
