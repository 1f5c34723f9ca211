/** What every run of the event loop makes of the bytes its clients send: the frames accepted
    on a connection are those of the stream read from its socket, and which frame sizes keep
    every receive buffer from filling up. */
module EventReceive {
  import opened Framing
  import opened SendModel
  import opened ServerReceive
  import opened ServerReads
  import opened EventLoop
  import opened EventRings

  const OBLIGING := Rules(false, true)

  // ---------------------------------------------------------------- the invariant

  /** For every connection, open or closed. */
  ghost predicate GotOk(s: Loop, c: nat, obliging: bool)
    requires c < |s.hist|
  {
    && s.hist[c].got <= Parse(s.hist[c].read)
    && (obliging ==> s.hist[c].got == Parse(s.hist[c].read))
  }

  /** For an open connection the unread bytes account for the rest of the stream. */
  ghost predicate LiveOk(s: Loop, fd: Fd, obliging: bool)
    requires fd in s.cells
  {
    var rx, past := s.cells[fd].rx, PastOf(s.hist, s.cells[fd].conn);
    past.got == rx.accepted && Accounts(rx, past.read) && (obliging ==> !Complete(rx.rx.unread) && Roomy(s.buf, rx, past.read))
  }

  /** If what was read is the beginning of frames up to half the buffer plus one byte, then the
      buffer is not full. */
  ghost predicate Roomy(B: nat, rx: Session, read: seq<Byte>) {
    B >= 2 && B % 2 == 0 ==> forall fs :: AtMost(B / 2 + 1, fs) && read <= EncodeAll(fs) ==> Healthy(B, rx, read)
  }

  ghost predicate Inv(s: Loop, obliging: bool) {
    && Numbered(s)
    && (forall c :: 0 <= c < |s.hist| ==> GotOk(s, c, obliging))
    && (forall fd :: fd in s.cells ==> LiveOk(s, fd, obliging))
  }

  /** Receiving again keeps the account. */
  lemma ReadsAccount(B: nat, rx: Session, read: seq<Byte>, script: seq<ReadResult>, answers: Answers, obliging: bool)
    requires Accounts(rx, read) && (obliging ==> !Complete(rx.rx.unread) && Roomy(B, rx, read) && forall i :: answers(i))
    ensures var r := Reads(B, rx, script, answers);
      && Accounts(r.session, read + r.read)
      && (obliging ==> !Complete(r.session.rx.unread) && Roomy(B, r.session, read + r.read))
      && r.session.accepted <= Parse(read + r.read)
      && (obliging ==> r.session.accepted == Parse(read + r.read))
  {
    hide Complete, Length, Head, Parse, Feed, AllFit, Reads, Accounts, Roomy;
    var chunks := ReadsFeed(B, rx, script, answers);
    var r := Reads(B, rx, script, answers);
    FeedAccounts(B, rx, read, chunks, answers);
    AccountsNow(r.session, read + r.read);
    if obliging {
      WillingFeed(B, rx, chunks, answers);
      StaysRoomy(B, rx, read, chunks, answers);
    }
  }

  lemma StaysRoomy(B: nat, rx: Session, read: seq<Byte>, chunks: seq<seq<Byte>>, answers: Answers)
    requires Roomy(B, rx, read) && AllFit(B, rx, chunks, answers) && forall i :: answers(i)
    ensures Roomy(B, Feed(B, rx, chunks, answers), read + Concat(chunks))
  {
    hide Feed, AllFit, Healthy, Concat;
    var all := read + Concat(chunks);
    if B >= 2 && B % 2 == 0 {
      forall fs | AtMost(B / 2 + 1, fs) && all <= EncodeAll(fs) ensures Healthy(B, Feed(B, rx, chunks, answers), all) {
        assert read <= all;
        FeedHealthy(B, B / 2 + 1, fs, rx, read, chunks, answers);
      }
    }
  }

  /** A step after which one client's stream is still accounted for. */
  lemma ClientStep(s: Loop, s': Loop, fd: Fd, obliging: bool)
    requires Inv(s, obliging) && OnlyClient(s, s', fd) && s'.buf == s.buf
    requires LiveOk(s', fd, obliging) && GotOk(s', s.cells[fd].conn, obliging)
    ensures Inv(s', obliging)
  {
    hide Accounts, Parse, Complete, Roomy;
    forall f | f in s'.cells ensures LiveOk(s', f, obliging) {
      if f != fd { assert LiveOk(s, f, obliging); }
    }
    forall c | 0 <= c < |s'.hist| ensures GotOk(s', c, obliging) { assert GotOk(s, c, obliging); }
  }

  /** Steps that change no receive buffer and neither what was read nor what was accepted. */
  lemma QuietStep(s: Loop, s': Loop, obliging: bool)
    requires Inv(s, obliging) && |s'.hist| == |s.hist| && s'.buf == s.buf && s'.cells.Keys <= s.cells.Keys
    requires forall c :: 0 <= c < |s.hist| ==> s'.hist[c].read == s.hist[c].read && s'.hist[c].got == s.hist[c].got
    requires forall f :: f in s'.cells ==> s'.cells[f].conn == s.cells[f].conn && s'.cells[f].rx == s.cells[f].rx
    ensures Inv(s', obliging)
  {
    hide Accounts, Parse, Complete, Roomy;
    forall f | f in s'.cells ensures LiveOk(s', f, obliging) { assert LiveOk(s, f, obliging); }
    forall c | 0 <= c < |s'.hist| ensures GotOk(s', c, obliging) { assert GotOk(s, c, obliging); }
  }

  lemma NewClientInv(s: Loop, fd: Fd, junk: bool, obliging: bool)
    requires Inv(s, obliging) && fd !in s.cells
    ensures Inv(NewClient(s, fd, junk), obliging)
  {
    var s' := NewClient(s, fd, junk);
    NothingRead(s.buf);
    hide Accounts, Parse, Complete, Roomy;
    forall f | f in s'.cells ensures LiveOk(s', f, obliging) {
      if f != fd { assert LiveOk(s, f, obliging); }
    }
    forall c | 0 <= c < |s'.hist| ensures GotOk(s', c, obliging) {
      if c < |s.hist| { assert GotOk(s, c, obliging); }
    }
  }

  lemma NothingRead(B: nat)
    ensures Accounts(FRESH, []) && !Complete([]) && Parse([]) == [] && Roomy(B, FRESH, [])
  {
    NothingAccounts();
  }

  lemma DoRecvInv(s: Loop, fd: Fd, script: seq<ReadResult>, answers: Answers, obliging: bool)
    requires Inv(s, obliging) && (obliging ==> forall i :: answers(i))
    ensures Inv(DoRecv(s, fd, script, answers), obliging)
  {
    hide Reads, Accounts, Parse, Complete, Roomy;
    if fd in s.cells {
      assert LiveOk(s, fd, obliging);
      ReadsAccount(s.buf, s.cells[fd].rx, PastOf(s.hist, s.cells[fd].conn).read, script, answers, obliging);
      ClientStep(s, DoRecv(s, fd, script, answers), fd, obliging);
    }
  }

  lemma DoSendInv(s: Loop, fd: Fd, results: Results, obliging: bool)
    requires Inv(s, obliging)
    ensures Inv(DoSend(s, fd, results), obliging)
  {
    hide SendModel.Send;
    QuietStep(s, DoSend(s, fd, results), obliging);
  }

  lemma DoEventInv(s: Loop, e: Ready, w: World, obliging: bool)
    requires Inv(s, obliging) && (obliging ==> forall i :: w.answers(i))
    ensures Inv(DoEvent(s, e, w), obliging)
  {
    hide Inv, DoRecv, DoSend;
    if e.hup {
      QuietPush(s, Del(e.fd), obliging);
    } else {
      DoRecvInv(s, e.fd, w.script, w.answers, obliging);
      DoSendInv(s, e.fd, w.results, obliging);
      DoSendInv(DoRecv(s, e.fd, w.script, w.answers), e.fd, w.results, obliging);
    }
  }

  lemma QuietPush(s: Loop, t: Task, obliging: bool)
    requires Inv(s, obliging)
    ensures Inv(Push(s, t), obliging)
  {
    QuietStep(s, Push(s, t), obliging);
  }

  lemma StepInv(s: Loop, a: Step, obliging: bool)
    requires Inv(s, obliging) && Allowed(s, a, Rules(false, obliging))
    ensures Inv(Do(s, a), obliging)
  {
    hide Accounts, Parse, Complete, Roomy;
    if a.Accepted? {
      NewClientInv(s, a.fd, a.junk, obliging);
      hide NewClient;
      QuietPush(NewClient(s, a.fd, a.junk), Add(a.fd), obliging);
    } else if a.Serve? {
      DoEventInv(s, s.phase.batch[0], a.world, obliging);
      hide DoEvent;
      QuietStep(DoEvent(s, s.phase.batch[0], a.world), Do(s, a), obliging);
    } else {
      QuietStep(s, Do(s, a), obliging);
    }
  }

  lemma {:induction false} RunInv(run: seq<Loop>, i: nat, obliging: bool)
    requires IsRun(run, Rules(false, obliging)) && i < |run|
    ensures Inv(run[i], obliging)
  {
    if i > 0 {
      hide Inv, Do;
      RunInv(run, i - 1, obliging);
      assert StepAt(run, i - 1, Rules(false, obliging));
      var a :| Allowed(run[i - 1], a, Rules(false, obliging)) && run[i] == Do(run[i - 1], a);
      StepInv(run[i - 1], a, obliging);
    }
  }

  // ---------------------------------------------------------------- main theorem

  /** In every state of every run, for every connection ever accepted, whatever the kernel
      delivers when and whatever the callback refuses: the frames accepted are a prefix of the
      greedy parse of the bytes read from that socket, and all of it if nothing is refused. */
  lemma FramesArrive(run: seq<Loop>, i: nat, c: nat, obliging: bool)
    requires IsRun(run, Rules(false, obliging)) && i < |run| && c < |run[i].hist|
    ensures var past := run[i].hist[c];
      past.got <= Parse(past.read) && (obliging ==> past.got == Parse(past.read))
  {
    RunInv(run, i, obliging);
    assert GotOk(run[i], c, obliging);
  }

  // ---------------------------------------------------------------- buffers that never fill up

  lemma {:induction false} SizesStay(path: seq<Loop>, rules: Rules, i: nat)
    requires IsPath(path, rules) && i < |path|
    ensures path[i].buf == path[0].buf
  {
    hide Reads, SendModel.Send;
    if i > 0 {
      SizesStay(path, rules, i - 1);
      assert StepAt(path, i - 1, rules);
    }
  }

  /** In every run with an obliging callback, no receive buffer is full whose bytes so far are
      the beginning of well-formed frames of at most F bytes. */
  ghost predicate NeverFull(cap: nat, slots: nat, buf: nat, F: nat) {
    forall run, fd, fs ::
      IsRun(run, OBLIGING) && run[0] == Boot(cap, slots, buf) && fd in Last(run).cells
      && AtMost(F, fs) && PastOf(Last(run).hist, Last(run).cells[fd].conn).read <= EncodeAll(fs)
      ==> !Jammed(buf, Last(run).cells[fd].rx)
  }

  /** A run that fills a buffer with such bytes of frames one byte too long. */
  lemma FillsUp(cap: nat, slots: nat, buf: nat) returns (run: seq<Loop>, fs: seq<Frame>)
    requires cap >= 1 && buf % 2 == 0 && 20 <= buf < 0x8000_0000
    ensures IsRun(run, OBLIGING) && run[0] == Boot(cap, slots, buf) && 0 in Last(run).cells
    ensures AtMost(buf / 2 + 2, fs) && PastOf(Last(run).hist, Last(run).cells[0].conn).read <= EncodeAll(fs)
    ensures Jammed(buf, Last(run).cells[0].rx)
  {
    var chunk;
    fs, chunk := TooLongJams(buf);
    run := ReadyToRead(cap, slots, buf);
    var w := World([Data(chunk)], i => true, i => Broken);
    ReadsWhole(buf, chunk, w.answers);
    assert NOTHING.read + chunk == chunk;
    hide Reads, Jammed, IsRun, AtMost, EncodeAll;
    run := Go(run, Serve(w));
  }

  /** A client connects, and its socket is reported readable. */
  lemma ReadyToRead(cap: nat, slots: nat, buf: nat) returns (run: seq<Loop>)
    requires cap >= 1
    ensures IsRun(run, OBLIGING) && run[0] == Boot(cap, slots, buf)
    ensures var s := Last(run);
      && s.phase == Serving([Ready(0, false, true, false)]) && s.buf == buf && s.hist == [NOTHING]
      && 0 in s.cells && s.cells[0].conn == 0 && s.cells[0].rx == FRESH
  {
    run := [Boot(cap, slots, buf)];
    run := Go(run, Accepted(0, false));
    run := Go(run, Pop);
    run := Go(run, Drained);
    run := Go(run, Checked);
    run := Go(run, Woken([Ready(0, false, true, false)]));
  }

  lemma ReadsWhole(B: nat, chunk: seq<Byte>, answers: Answers)
    requires AllFit(B, FRESH, [chunk], answers)
    ensures var r := Reads(B, FRESH, [Data(chunk)], answers);
      r.read == chunk && r.session == Feed(B, FRESH, [chunk], answers) && !r.fatal
  {
    hide Receive;
    ReadsData(B, FRESH, [Data(chunk)], answers);
    var s1 := Receive(B, FRESH, chunk, answers);
    assert [chunk][1..] == [] && [Data(chunk)][1..] == [];
    if !Jammed(B, s1) {
      ReadsIdle(B, s1, [], answers);
      assert chunk + [] == chunk;
    }
  }

  lemma Go(run: seq<Loop>, a: Step) returns (longer: seq<Loop>)
    requires IsRun(run, OBLIGING) && Can(Last(run), a) && Obliging(a)
    ensures IsRun(longer, OBLIGING) && longer[0] == run[0] && Last(longer) == Do(Last(run), a)
  {
    Extend(run, a, OBLIGING);
    longer := run + [Do(Last(run), a)];
  }

  /** Main theorem: the sharp bound of `ServerReceive` for whole runs with any number of
      clients. */
  lemma NeverFullIff(cap: nat, slots: nat, buf: nat, F: nat)
    requires cap >= 1 && buf % 2 == 0 && 20 <= buf < 0x8000_0000
    ensures NeverFull(cap, slots, buf, F) <==> F <= buf / 2 + 1
  {
    if F <= buf / 2 + 1 {
      forall run, fd, fs |
        IsRun(run, OBLIGING) && run[0] == Boot(cap, slots, buf) && fd in Last(run).cells
        && AtMost(F, fs) && PastOf(Last(run).hist, Last(run).cells[fd].conn).read <= EncodeAll(fs)
        ensures !Jammed(buf, Last(run).cells[fd].rx)
      {
        RunInv(run, |run| - 1, true);
        SizesStay(run, OBLIGING, |run| - 1);
        assert LiveOk(Last(run), fd, true) && AtMost(buf / 2 + 1, fs);
      }
    } else {
      var run, fs := FillsUp(cap, slots, buf);
      assert AtMost(F, fs);
    }
  }
}
