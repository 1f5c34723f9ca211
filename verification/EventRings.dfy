/** The send rings over whole runs of the event loop, whatever descriptors are reissued: they
    never overflow, and one is stuck exactly when an empty payload was ever put into it. */
module EventRings {
  import opened Framing
  import opened SendModel
  import opened ServerReads
  import opened EventLoop

  /** All payloads handled for a connection, and those its ring had room for. */
  function Datas(h: seq<Handled>): seq<seq<Byte>> {
    if h == [] then [] else Datas(h[..|h| - 1]) + [h[|h| - 1].data]
  }

  function Kept(h: seq<Handled>): seq<seq<Byte>> {
    if h == [] then []
    else if h[|h| - 1].kept then Kept(h[..|h| - 1]) + [h[|h| - 1].data]
    else Kept(h[..|h| - 1])
  }

  lemma HandledAppend(h: seq<Handled>, x: Handled)
    ensures Datas(h + [x]) == Datas(h) + [x.data]
    ensures Kept(h + [x]) == Kept(h) + if x.kept then [x.data] else []
  {
    assert (h + [x])[..|h|] == h;
  }

  // ---------------------------------------------------------------- the invariant

  /** Open connections have numbers of their own. */
  ghost predicate Numbered(s: Loop) {
    && (forall f :: f in s.cells ==> s.cells[f].conn < |s.hist|)
    && (forall f, g :: f in s.cells && g in s.cells && s.cells[f].conn == s.cells[g].conn ==> f == g)
  }

  /** One slot stays free, and an empty payload that got into the ring is still there. */
  ghost predicate RingOk(s: Loop, fd: Fd)
    requires fd in s.cells
  {
    var cell := s.cells[fd];
    && (s.slots >= 1 ==> |cell.ring| < s.slots)
    && ([] in cell.ring <==> [] in Kept(PastOf(s.hist, cell.conn).handled))
  }

  ghost predicate Inv(s: Loop) {
    Numbered(s) && forall fd :: fd in s.cells ==> RingOk(s, fd)
  }

  // ---------------------------------------------------------------- steps

  /** Steps that change one client at most keep what holds of the others. */
  ghost predicate OnlyClient(s: Loop, s': Loop, fd: Fd) {
    && fd in s.cells && s'.cells.Keys == s.cells.Keys && s'.slots == s.slots && |s'.hist| == |s.hist|
    && s'.cells[fd].conn == s.cells[fd].conn
    && (forall f :: f in s.cells && f != fd ==> s'.cells[f] == s.cells[f])
    && (forall d :: 0 <= d < |s.hist| && d != s.cells[fd].conn ==> s'.hist[d] == s.hist[d])
  }

  lemma ClientStep(s: Loop, s': Loop, fd: Fd)
    requires Inv(s) && OnlyClient(s, s', fd) && RingOk(s', fd)
    ensures Inv(s')
  {
    hide Kept;
    forall f | f in s'.cells ensures RingOk(s', f) {
      if f != fd { assert RingOk(s, f); }
    }
  }

  /** Steps that change no ring and no connection's history. */
  lemma QuietStep(s: Loop, s': Loop)
    requires Inv(s) && s'.hist == s.hist && s'.slots == s.slots && s'.cells.Keys <= s.cells.Keys
    requires forall f :: f in s'.cells ==> s'.cells[f].conn == s.cells[f].conn && s'.cells[f].ring == s.cells[f].ring
    ensures Inv(s')
  {
    hide Kept;
    forall f | f in s'.cells ensures RingOk(s', f) { assert RingOk(s, f); }
  }

  lemma NewClientInv(s: Loop, fd: Fd, junk: bool)
    requires Inv(s) && fd !in s.cells
    ensures Inv(NewClient(s, fd, junk))
  {
    var s' := NewClient(s, fd, junk);
    forall f | f in s'.cells ensures RingOk(s', f) {
      if f != fd { assert RingOk(s, f); }
    }
  }

  lemma SendTaskInv(s: Loop, fd: Fd, data: seq<Byte>)
    requires Inv(s)
    ensures Inv(SendTask(s, fd, data).0)
  {
    hide Kept;
    if SendTask(s, fd, data).1 {
      assert RingOk(s, fd);
      ClientStep(s, SendTask(s, fd, data).0, fd);
    }
  }

  lemma HandleSendInv(s: Loop, fd: Fd, data: seq<Byte>)
    requires Inv(s)
    ensures Inv(HandleSend(s, fd, data))
  {
    if fd in s.cells {
      assert RingOk(s, fd);
      var h := PastOf(s.hist, s.cells[fd].conn).handled;
      HandledAppend(h, Handled(data, |s.cells[fd].ring| + 1 < s.slots));
      hide Kept;
      ClientStep(s, HandleSend(s, fd, data), fd);
    }
  }

  lemma PopTaskInv(s: Loop)
    requires Inv(s) && s.tasks != []
    ensures Inv(PopTask(s))
  {
    hide Kept;
    var s1 := s.(tasks := s.tasks[1..]);
    QuietStep(s, s1);
    match s.tasks[0]
    case Add(fd) => QuietStep(s1, HandleAdd(s1, fd));
    case Del(fd) => QuietStep(s1, HandleDel(s1, fd));
    case Send(fd, data, _) => HandleSendInv(s1, fd, data);
  }

  lemma DoRecvInv(s: Loop, fd: Fd, script: seq<ReadResult>, answers: Answers)
    requires Inv(s)
    ensures Inv(DoRecv(s, fd, script, answers))
  {
    hide Kept, Reads;
    if fd in s.cells {
      assert RingOk(s, fd);
      ClientStep(s, DoRecv(s, fd, script, answers), fd);
    }
  }

  lemma DoSendInv(s: Loop, fd: Fd, results: Results)
    requires Inv(s)
    ensures Inv(DoSend(s, fd, results))
  {
    hide Kept, SendModel.Send, Flatten;
    if fd in s.cells {
      assert RingOk(s, fd);
      var p := Progress(s.cells[fd].ring, [], 0);
      SendConserves(p, results, MAX_SEND_TIMES);
      SendKeepsEmpty(p, results, MAX_SEND_TIMES);
      ClientStep(s, DoSend(s, fd, results), fd);
    }
  }

  lemma DoEventInv(s: Loop, e: Ready, w: World)
    requires Inv(s)
    ensures Inv(DoEvent(s, e, w))
  {
    hide Kept, DoRecv, DoSend, Inv;
    if e.hup {
      PushInv(s, Del(e.fd));
    } else {
      DoRecvInv(s, e.fd, w.script, w.answers);
      DoSendInv(s, e.fd, w.results);
      DoSendInv(DoRecv(s, e.fd, w.script, w.answers), e.fd, w.results);
    }
  }

  lemma PushInv(s: Loop, t: Task)
    requires Inv(s)
    ensures Inv(Push(s, t))
  {
    QuietStep(s, Push(s, t));
  }

  lemma StepInv(s: Loop, a: Step)
    requires Inv(s) && Can(s, a)
    ensures Inv(Do(s, a))
  {
    hide Kept, PopTask, DoEvent, EventLoop.SendTask, NewClient;
    match a
    case Accepted(fd, junk) =>
      NewClientInv(s, fd, junk);
      PushInv(NewClient(s, fd, junk), Add(fd));
    case SentBy(fd, data) => SendTaskInv(s, fd, data);
    case Pop => PopTaskInv(s);
    case Serve(w) =>
      DoEventInv(s, s.phase.batch[0], w);
      QuietStep(DoEvent(s, s.phase.batch[0], w), Do(s, a));
    case _ => QuietStep(s, Do(s, a));
  }

  lemma {:induction false} RunInv(run: seq<Loop>, i: nat)
    requires IsRun(run, FREE) && i < |run|
    ensures Inv(run[i])
  {
    if i > 0 {
      hide Inv, Do;
      RunInv(run, i - 1);
      assert StepAt(run, i - 1, FREE);
      var a :| Allowed(run[i - 1], a, FREE) && run[i] == Do(run[i - 1], a);
      StepInv(run[i - 1], a);
    }
  }

  lemma {:induction false} SlotsStay(path: seq<Loop>, i: nat)
    requires IsPath(path, FREE) && i < |path|
    ensures path[i].slots == path[0].slots
  {
    hide Reads, SendModel.Send;
    if i > 0 {
      SlotsStay(path, i - 1);
      assert StepAt(path, i - 1, FREE);
    }
  }

  // ---------------------------------------------------------------- main theorems

  /** No ring ever holds more than one payload less than it has slots. */
  lemma RingsNeverOverflow(run: seq<Loop>, i: nat, fd: Fd)
    requires IsRun(run, FREE) && i < |run| && run[0].slots >= 1 && fd in run[i].cells
    ensures |run[i].cells[fd].ring| < run[0].slots
  {
    RunInv(run, i);
    SlotsStay(run, i);
    assert RingOk(run[i], fd);
  }

  /** In every state of every run, a socket that takes whole payloads whenever it answers, and
      answers often enough within the turns of one `doSend`, drains the ring exactly when no
      empty payload was ever kept for the client. */
  lemma DrainsIffNoEmptyPayload(run: seq<Loop>, i: nat, fd: Fd, results: Results)
    requires IsRun(run, FREE) && i < |run| && fd in run[i].cells
    requires Willing(run[i].cells[fd].ring, results) && Answered(results, 0, MAX_SEND_TIMES) >= |run[i].cells[fd].ring|
    ensures var s := run[i];
      DoSend(s, fd, results).cells[fd].ring == [] <==> [] !in Kept(PastOf(s.hist, s.cells[fd].conn).handled)
  {
    var ring := run[i].cells[fd].ring;
    RunInv(run, i);
    assert RingOk(run[i], fd);
    DrainsIff(Progress(ring, [], 0), results, MAX_SEND_TIMES);
    assert [] in ring <==> exists k :: 0 <= k < |ring| && ring[k] == [];
  }

  /** Nothing more is ever written for connection c, and while it is open its ring starts
      with an empty payload. */
  ghost predicate Blocked(s: Loop, c: nat, wire: seq<Byte>) {
    && c < |s.hist| && s.hist[c].wire == wire
    && forall f :: f in s.cells && s.cells[f].conn == c ==> s.cells[f].ring != [] && s.cells[f].ring[0] == []
  }

  lemma StepBlocked(s: Loop, a: Step, c: nat, wire: seq<Byte>)
    requires Inv(s) && Can(s, a) && Blocked(s, c, wire)
    ensures Blocked(Do(s, a), c, wire)
  {
    hide Kept, Reads, SendModel.Send, RingOk;
    match a
    case Serve(w) => ServeBlocked(s, s.phase.batch[0], w, c, wire);
    case _ =>
  }

  lemma ServeBlocked(s: Loop, e: Ready, w: World, c: nat, wire: seq<Byte>)
    requires Inv(s) && Blocked(s, c, wire)
    ensures Blocked(DoEvent(s, e, w), c, wire)
  {
    hide Kept, Reads, SendModel.Send, Inv;
    var s1 := if e.readable then DoRecv(s, e.fd, w.script, w.answers) else s;
    DoRecvInv(s, e.fd, w.script, w.answers);
    if !e.hup && e.writable {
      SendBlocked(s1, e.fd, w.results, c, wire);
    }
  }

  lemma SendBlocked(s: Loop, fd: Fd, results: Results, c: nat, wire: seq<Byte>)
    requires Inv(s) && Blocked(s, c, wire)
    ensures Blocked(DoSend(s, fd, results), c, wire)
  {
    hide Kept, SendModel.Send, RingOk;
    if fd in s.cells && s.cells[fd].conn == c {
      EmptyPayloadBlocks(Progress(s.cells[fd].ring, [], 0), results, MAX_SEND_TIMES);
      assert wire + [] == wire;
    }
  }

  /** Once an empty payload is at the head of a client's ring, no further byte is ever written
      to that client, in any continuation of any run. */
  lemma {:induction false} EmptyPayloadBlocksForEver(run: seq<Loop>, i: nat, j: nat, fd: Fd)
    requires IsRun(run, FREE) && i <= j < |run| && fd in run[i].cells
    requires run[i].cells[fd].ring != [] && run[i].cells[fd].ring[0] == []
    ensures var c := run[i].cells[fd].conn;
      c < |run[i].hist| && Blocked(run[j], c, run[i].hist[c].wire)
    decreases j
  {
    hide Kept, Blocked, RingOk, Do;
    RunInv(run, i);
    var c := run[i].cells[fd].conn;
    if i == j {
      HeadBlocks(run[i], fd);
    } else {
      EmptyPayloadBlocksForEver(run, i, j - 1, fd);
      RunInv(run, j - 1);
      assert StepAt(run, j - 1, FREE);
      var a :| Allowed(run[j - 1], a, FREE) && run[j] == Do(run[j - 1], a);
      StepBlocked(run[j - 1], a, c, run[i].hist[c].wire);
    }
  }

  lemma HeadBlocks(s: Loop, fd: Fd)
    requires Inv(s) && fd in s.cells && s.cells[fd].ring != [] && s.cells[fd].ring[0] == []
    ensures var c := s.cells[fd].conn; c < |s.hist| && Blocked(s, c, s.hist[c].wire)
  {
  }

  /** Such a state is reached by accepting a client and sending it an empty payload, with any
      queue and any ring of at least two slots. */
  lemma EmptyPayloadGetsIn(cap: nat, slots: nat, buf: nat, fd: Fd) returns (run: seq<Loop>)
    requires cap >= 1 && slots >= 2
    ensures IsRun(run, FREE) && run[0] == Boot(cap, slots, buf)
    ensures fd in Last(run).cells && Last(run).cells[fd].ring == [[]] && PastOf(Last(run).hist, 0).sent == [[]]
  {
    run := [Boot(cap, slots, buf)];
    run := Go(run, Accepted(fd, false));
    run := Go(run, Pop);
    run := Go(run, SentBy(fd, []));
    assert Last(run).tasks == [Send(fd, [], 0)];
    run := Go(run, Pop);
  }

  lemma Go(run: seq<Loop>, a: Step) returns (longer: seq<Loop>)
    requires IsRun(run, FREE) && Can(Last(run), a)
    ensures IsRun(longer, FREE) && longer[0] == run[0] && Last(longer) == Do(Last(run), a)
  {
    Extend(run, a, FREE);
    longer := run + [Do(Last(run), a)];
  }
}
