/** What every run of the event loop keeps: the order of the callbacks, at most one pending
    deletion per connection, and write interest that agrees with pending data. */
module EventOrder {
  import opened Framing
  import opened SendModel
  import opened ServerReads
  import opened EventLoop

  datatype Stage = Out | In | Wrong

  /** The order promised for one client: connect, any number of data and
      error callbacks, disconnect, again. */
  function Follow(st: Stage, c: Callback): Stage {
    match (st, c)
    case (Out, OnConnect(_)) => In
    case (In, OnRecvData(_)) => In
    case (In, OnError(_)) => In
    case (In, OnDisconnect(_)) => Out
    case _ => Wrong
  }

  /** Where the callbacks for fd have led. */
  function StageOf(trace: seq<Callback>, fd: Fd): Stage
    decreases |trace|
  {
    if trace == [] then Out
    else
      var st, c := StageOf(trace[..|trace| - 1], fd), trace[|trace| - 1];
      if c.fd == fd then Follow(st, c) else st
  }

  lemma StageAfter(trace: seq<Callback>, c: Callback, fd: Fd)
    ensures StageOf(trace + [c], fd) ==
            if c.fd == fd then Follow(StageOf(trace, fd), c) else StageOf(trace, fd)
  {
    assert (trace + [c])[..|trace|] == trace;
  }

  lemma {:induction false} StageAfterReads(trace: seq<Callback>, who: Fd, times: nat, fd: Fd)
    requires StageOf(trace, who) == In
    ensures StageOf(trace + seq(times, i => OnRecvData(who)), fd) == StageOf(trace, fd)
    decreases times
  {
    if times == 0 {
      assert trace + seq(times, i => OnRecvData(who)) == trace;
    } else {
      StageAfterReads(trace, who, times - 1, fd);
      StageAfterReads(trace, who, times - 1, who);
      var shorter := trace + seq(times - 1, i => OnRecvData(who));
      assert trace + seq(times, i => OnRecvData(who)) == shorter + [OnRecvData(who)];
      StageAfter(shorter, OnRecvData(who), fd);
    }
  }

  lemma StageAfterCalls(trace: seq<Callback>, who: Fd, r: Received, fd: Fd)
    requires StageOf(trace, who) == In
    ensures StageOf(trace + Calls(who, r), fd) == StageOf(trace, fd)
  {
    var called := trace + seq(r.callbacks, i => OnRecvData(who));
    StageAfterReads(trace, who, r.callbacks, fd);
    StageAfterReads(trace, who, r.callbacks, who);
    if r.full {
      assert trace + Calls(who, r) == called + [OnError(who)];
      StageAfter(called, OnError(who), fd);
    } else {
      assert trace + Calls(who, r) == called;
    }
  }

  // ---------------------------------------------------------------- the invariant

  /** Callbacks have followed the order, and fd is between connect and disconnect exactly
      while it is registered. */
  ghost predicate Ordered(s: Loop, fd: Fd) {
    StageOf(s.trace, fd) == (if fd in s.kernel then In else Out)
  }

  ghost predicate TaskOk(s: Loop, i: nat)
    requires i < |s.tasks|
  {
    match s.tasks[i]
    case Add(fd) => fd in s.cells && fd !in s.kernel
    case Del(fd) => fd in s.kernel
    case Send(_, _, _) => true
  }

  /** No two queued tasks add, or delete, the same client. */
  ghost predicate NoTwins(s: Loop) {
    forall i, j :: 0 <= i < j < |s.tasks| && s.tasks[i] == s.tasks[j] ==> s.tasks[i].Send?
  }

  ghost predicate BatchOk(s: Loop) {
    match s.phase
    case Draining => true
    case Serving(batch) =>
      && OncePerClient(batch)
      && forall e :: e in batch ==> e.fd in s.kernel && Del(e.fd) !in s.tasks
    case _ => forall t :: t in s.tasks ==> !t.Del?
  }

  /** `m_Events` of every registered client is what epoll has. */
  ghost predicate MaskOk(s: Loop, fd: Fd)
    requires fd in s.kernel
  {
    fd in s.cells && s.kernel[fd] == s.cells[fd].out
  }

  ghost predicate InterestOk(s: Loop) {
    s.phase == Waiting ==> forall fd :: fd in s.kernel && fd in s.cells ==> (s.kernel[fd] <==> s.cells[fd].ring != [])
  }

  ghost predicate Inv(s: Loop) {
    && (forall fd :: Ordered(s, fd))
    && (forall i :: 0 <= i < |s.tasks| ==> TaskOk(s, i))
    && NoTwins(s) && BatchOk(s)
    && (forall fd :: fd in s.kernel ==> MaskOk(s, fd))
    && InterestOk(s)
  }

  lemma BootInv(cap: nat, slots: nat, buf: nat)
    ensures Inv(Boot(cap, slots, buf))
  {
  }

  // ---------------------------------------------------------------- steps

  lemma PushInv(s: Loop, t: Task)
    requires Inv(s)
    requires t.Add? ==> t.fd in s.cells && t.fd !in s.kernel && t !in s.tasks
    requires t.Del? ==> t.fd in s.kernel && t !in s.tasks && s.phase.Serving? && forall e :: e in s.phase.batch ==> e.fd != t.fd
    ensures Inv(Push(s, t))
  {
    var s' := Push(s, t);
    forall i | 0 <= i < |s'.tasks| ensures TaskOk(s', i) {
      if i < |s.tasks| { assert TaskOk(s, i); }
    }
    forall fd ensures Ordered(s', fd) { assert Ordered(s, fd); }
    forall fd | fd in s'.kernel ensures MaskOk(s', fd) { assert MaskOk(s, fd); }
  }

  /** A new, unregistered cell disturbs nothing. */
  lemma NewCellInv(s: Loop, fd: Fd, cell: Cell)
    requires Inv(s) && fd !in s.cells
    ensures Add(fd) !in s.tasks && fd !in s.kernel
    ensures Inv(s.(cells := s.cells[fd := cell]))
  {
    var s' := s.(cells := s.cells[fd := cell]);
    forall f | f in s.kernel ensures f in s.cells { assert MaskOk(s, f); }
    forall i | 0 <= i < |s.tasks| ensures TaskOk(s', i) && s.tasks[i] != Add(fd) { assert TaskOk(s, i); }
    forall f ensures Ordered(s', f) { assert Ordered(s, f); }
    forall f | f in s'.kernel ensures MaskOk(s', f) { assert MaskOk(s, f); }
  }

  /** History does not matter here. */
  lemma HistoryInv(s: Loop, s': Loop)
    requires Inv(s) && s' == s.(hist := s'.hist)
    ensures Inv(s')
  {
    forall i | 0 <= i < |s'.tasks| ensures TaskOk(s', i) { assert TaskOk(s, i); }
    forall f ensures Ordered(s', f) { assert Ordered(s, f); }
    forall f | f in s'.kernel ensures MaskOk(s', f) { assert MaskOk(s, f); }
  }

  lemma AcceptInv(s: Loop, fd: Fd, junk: bool)
    requires Inv(s) && fd !in s.cells
    ensures Inv(Accept(s, fd, junk))
  {
    var s1 := s.(cells := s.cells[fd := NewCell(|s.hist|, junk)]);
    NewCellInv(s, fd, NewCell(|s.hist|, junk));
    HistoryInv(s1, NewClient(s, fd, junk));
    PushInv(NewClient(s, fd, junk), Add(fd));
  }

  lemma SendTaskInv(s: Loop, fd: Fd, data: seq<Byte>)
    requires Inv(s)
    ensures Inv(SendTask(s, fd, data).0)
  {
    if SendTask(s, fd, data).1 {
      var c := s.cells[fd].conn;
      PushInv(s, Send(fd, data, c));
      HistoryInv(Push(s, Send(fd, data, c)), SendTask(s, fd, data).0);
    }
  }

  /** After the first task is taken off, it is in nobody else's way. */
  lemma PopInv(s: Loop)
    requires Inv(s) && s.tasks != [] && s.phase == Draining
    ensures var s1 := s.(tasks := s.tasks[1..]); Inv(s1) && (s.tasks[0].Send? || s.tasks[0] !in s1.tasks)
  {
    var s1 := s.(tasks := s.tasks[1..]);
    forall i | 0 <= i < |s1.tasks| ensures TaskOk(s1, i) && (s.tasks[0].Send? || s1.tasks[i] != s.tasks[0]) {
      assert TaskOk(s, i + 1) && s1.tasks[i] == s.tasks[i + 1];
    }
    forall i, j | 0 <= i < j < |s1.tasks| && s1.tasks[i] == s1.tasks[j] ensures s1.tasks[i].Send? {
      assert s.tasks[i + 1] == s.tasks[j + 1];
    }
    forall f ensures Ordered(s1, f) { assert Ordered(s, f); }
    forall f | f in s1.kernel ensures MaskOk(s1, f) { assert MaskOk(s, f); }
  }

  lemma HandleAddInv(s: Loop, fd: Fd)
    requires Inv(s) && s.phase == Draining && fd in s.cells && fd !in s.kernel && Add(fd) !in s.tasks
    ensures Inv(HandleAdd(s, fd))
  {
    var s' := HandleAdd(s, fd);
    forall f ensures Ordered(s', f) {
      assert Ordered(s, f);
      StageAfter(s.trace, OnConnect(fd), f);
    }
    forall i | 0 <= i < |s'.tasks| ensures TaskOk(s', i) {
      assert TaskOk(s, i);
      assert s.tasks[i] in s.tasks;
    }
    forall f | f in s'.kernel ensures MaskOk(s', f) { if f != fd { assert MaskOk(s, f); } }
  }

  lemma HandleDelInv(s: Loop, fd: Fd)
    requires Inv(s) && s.phase == Draining && fd in s.kernel && Del(fd) !in s.tasks
    ensures Inv(HandleDel(s, fd))
  {
    var s' := HandleDel(s, fd);
    assert MaskOk(s, fd);
    forall f ensures Ordered(s', f) {
      assert Ordered(s, f);
      StageAfter(s.trace, OnDisconnect(fd), f);
    }
    forall i | 0 <= i < |s'.tasks| ensures TaskOk(s', i) {
      assert TaskOk(s, i);
      assert s.tasks[i] in s.tasks;
    }
    forall f | f in s'.kernel ensures MaskOk(s', f) { assert MaskOk(s, f); }
  }

  /** Changing a client's buffers matters only while waiting. */
  lemma BuffersInv(s: Loop, fd: Fd, cell: Cell)
    requires Inv(s) && s.phase != Waiting && fd in s.cells && cell.out == s.cells[fd].out
    ensures Inv(s.(cells := s.cells[fd := cell]))
  {
    var s' := s.(cells := s.cells[fd := cell]);
    forall i | 0 <= i < |s'.tasks| ensures TaskOk(s', i) { assert TaskOk(s, i); }
    forall f ensures Ordered(s', f) { assert Ordered(s, f); }
    forall f | f in s'.kernel ensures MaskOk(s', f) { assert MaskOk(s, f); }
  }

  lemma HandleSendInv(s: Loop, fd: Fd, data: seq<Byte>)
    requires Inv(s) && s.phase == Draining
    ensures Inv(HandleSend(s, fd, data))
  {
    if fd in s.cells {
      var s' := HandleSend(s, fd, data);
      BuffersInv(s, fd, s'.cells[fd]);
      assert s.cells[fd := s'.cells[fd]] == s'.cells;
      HistoryInv(s.(cells := s'.cells), s');
    }
  }

  lemma PopTaskInv(s: Loop)
    requires Inv(s) && s.tasks != [] && s.phase == Draining
    ensures Inv(PopTask(s))
  {
    PopInv(s);
    assert TaskOk(s, 0);
    var s1 := s.(tasks := s.tasks[1..]);
    match s.tasks[0]
    case Add(fd) => HandleAddInv(s1, fd);
    case Del(fd) => HandleDelInv(s1, fd);
    case Send(fd, data, _) => HandleSendInv(s1, fd, data);
  }

  lemma CheckWriteInv(s: Loop)
    requires Inv(s) && s.phase == Checking
    ensures Inv(CheckWrite(s).(phase := Waiting))
  {
    var s' := CheckWrite(s).(phase := Waiting);
    forall i | 0 <= i < |s'.tasks| ensures TaskOk(s', i) { assert TaskOk(s, i); }
    forall f ensures Ordered(s', f) { assert Ordered(s, f); }
    forall f | f in s'.kernel ensures MaskOk(s', f) && (s'.kernel[f] <==> s'.cells[f].ring != []) { assert MaskOk(s, f); }
  }

  /** Callbacks of a registered client between its connect and disconnect. */
  lemma CallsInv(s: Loop, fd: Fd, r: Received)
    requires Inv(s) && fd in s.kernel
    ensures Inv(s.(trace := s.trace + Calls(fd, r)))
  {
    var s1 := s.(trace := s.trace + Calls(fd, r));
    assert Ordered(s, fd);
    forall f ensures Ordered(s1, f) {
      assert Ordered(s, f);
      StageAfterCalls(s.trace, fd, r, f);
    }
    forall i | 0 <= i < |s1.tasks| ensures TaskOk(s1, i) { assert TaskOk(s, i); }
    forall f | f in s1.kernel ensures MaskOk(s1, f) { assert MaskOk(s, f); }
  }

  lemma DoRecvInv(s: Loop, fd: Fd, script: seq<ReadResult>, answers: Answers)
    requires Inv(s) && s.phase.Serving? && fd in s.kernel && Del(fd) !in s.tasks
    requires forall e :: e in s.phase.batch ==> e.fd != fd
    ensures Inv(DoRecv(s, fd, script, answers))
  {
    hide Reads;
    assert MaskOk(s, fd);
    var r := Reads(s.buf, s.cells[fd].rx, script, answers);
    var cell := s.cells[fd].(rx := r.session);
    var s1 := s.(cells := s.cells[fd := cell]);
    BuffersInv(s, fd, cell);
    CallsInv(s1, fd, r);
    var s2 := s1.(trace := s.trace + Calls(fd, r));
    var past := PastOf(s.hist, cell.conn);
    var s3 := s2.(hist := Record(s.hist, cell.conn, past.(read := past.read + r.read, got := r.session.accepted)));
    HistoryInv(s2, s3);
    if r.fatal {
      PushInv(s3, Del(fd));
    }
  }

  lemma DoSendInv(s: Loop, fd: Fd, results: Results)
    requires Inv(s) && s.phase.Serving?
    ensures Inv(DoSend(s, fd, results))
  {
    hide SendModel.Send;
    if fd in s.cells {
      var s' := DoSend(s, fd, results);
      BuffersInv(s, fd, s'.cells[fd]);
      HistoryInv(s.(cells := s'.cells), s');
    }
  }

  /** The event served is taken off the batch, where its client does not appear again. */
  lemma NextEvent(s: Loop)
    requires Inv(s) && s.phase.Serving? && s.phase.batch != []
    ensures var e, s0 := s.phase.batch[0], s.(phase := Serving(s.phase.batch[1..]));
      && Inv(s0) && e.fd in s.kernel && Del(e.fd) !in s.tasks && forall d :: d in s0.phase.batch ==> d.fd != e.fd
  {
    var e, rest := s.phase.batch[0], s.phase.batch[1..];
    var s0 := s.(phase := Serving(rest));
    assert e in s.phase.batch;
    forall i | 0 <= i < |s0.tasks| ensures TaskOk(s0, i) { assert TaskOk(s, i); }
    forall f ensures Ordered(s0, f) { assert Ordered(s, f); }
    forall f | f in s0.kernel ensures MaskOk(s0, f) { assert MaskOk(s, f); }
    forall d | d in rest ensures d.fd != e.fd && d in s.phase.batch {
      var i :| 0 <= i < |rest| && rest[i] == d;
      assert s.phase.batch[i + 1] == d;
    }
  }

  lemma ServeInv(s: Loop, w: World)
    requires Inv(s) && s.phase.Serving? && s.phase.batch != []
    ensures Inv(Do(s, Serve(w)))
  {
    hide Inv, DoRecv, DoSend;
    NextEvent(s);
    var e := s.phase.batch[0];
    var s0 := s.(phase := Serving(s.phase.batch[1..]));
    PhaseCommutes(s, e, w, s0.phase);
    if e.hup {
      PushInv(s0, Del(e.fd));
    } else {
      var s1 := s0;
      if e.readable {
        DoRecvInv(s0, e.fd, w.script, w.answers);
        s1 := DoRecv(s0, e.fd, w.script, w.answers);
        RecvKeepsPhase(s0, e.fd, w.script, w.answers);
      }
      if e.writable {
        DoSendInv(s1, e.fd, w.results);
      }
    }
  }

  lemma RecvKeepsPhase(s: Loop, fd: Fd, script: seq<ReadResult>, answers: Answers)
    ensures DoRecv(s, fd, script, answers).phase == s.phase
  {
  }

  /** Serving an event does not look at the phase. */
  lemma PhaseCommutes(s: Loop, e: Ready, w: World, phase: Phase)
    ensures DoEvent(s, e, w).(phase := phase) == DoEvent(s.(phase := phase), e, w)
  {
    hide Reads, SendModel.Send;
  }

  lemma PhaseInv(s: Loop, phase: Phase)
    requires Inv(s) && BatchOk(s.(phase := phase)) && phase != Waiting
    ensures Inv(s.(phase := phase))
  {
    var s' := s.(phase := phase);
    forall i | 0 <= i < |s'.tasks| ensures TaskOk(s', i) { assert TaskOk(s, i); }
    forall f ensures Ordered(s', f) { assert Ordered(s, f); }
    forall f | f in s'.kernel ensures MaskOk(s', f) { assert MaskOk(s, f); }
  }

  lemma StepInv(s: Loop, a: Step)
    requires Inv(s) && Can(s, a)
    ensures Inv(Do(s, a))
  {
    hide Inv, Accept, EventLoop.SendTask, PopTask, CheckWrite, DoEvent;
    match a
    case Accepted(fd, junk) => AcceptInv(s, fd, junk);
    case SentBy(fd, data) => SendTaskInv(s, fd, data);
    case Pop => PopTaskInv(s);
    case Drained => DrainedInv(s);
    case Checked => CheckWriteInv(s);
    case Woken(batch) => WokenInv(s, batch);
    case Serve(w) => ServeInv(s, w);
    case Served => PhaseInv(s, Draining);
  }

  lemma DrainedInv(s: Loop)
    requires Inv(s) && Can(s, Drained)
    ensures Inv(s.(phase := Checking))
  {
    PhaseInv(s, Checking);
  }

  lemma WokenInv(s: Loop, batch: seq<Ready>)
    requires Inv(s) && Can(s, Woken(batch))
    ensures Inv(s.(phase := Serving(batch)))
  {
    PhaseInv(s, Serving(batch));
  }

  lemma {:induction false} RunInv(run: seq<Loop>, i: nat)
    requires IsRun(run, FREE) && i < |run|
    ensures Inv(run[i])
  {
    hide Inv, Do;
    if i == 0 {
      BootInv(run[0].cap, run[0].slots, run[0].buf);
    } else {
      RunInv(run, i - 1);
      assert StepAt(run, i - 1, FREE);
      var a :| Allowed(run[i - 1], a, FREE) && run[i] == Do(run[i - 1], a);
      StepInv(run[i - 1], a);
    }
  }

  // ---------------------------------------------------------------- main theorems

  /** In every state of every run, with any number of threads accepting and sending and any
      kernel behaviour, each client's callbacks are (connect, data or error any number of
      times, disconnect) repeated, cut off anywhere; and no connection ever has two deletions
      queued. */
  lemma CallbackOrder(run: seq<Loop>, i: nat, fd: Fd)
    requires IsRun(run, FREE) && i < |run|
    ensures var s := run[i];
      && StageOf(s.trace, fd) != Wrong
      && forall i, j :: 0 <= i < j < |s.tasks| && s.tasks[i] == Del(fd) ==> s.tasks[j] != Del(fd)
  {
    RunInv(run, i);
    assert Ordered(run[i], fd);
  }

  /** Whenever the loop waits for events, epoll watches a registered client for writing
      exactly when bytes are pending for it, and `m_Events` says the same. */
  lemma WriteInterest(run: seq<Loop>, i: nat, fd: Fd)
    requires IsRun(run, FREE) && i < |run| && run[i].phase == Waiting && fd in run[i].kernel
    ensures var s := run[i];
      fd in s.cells && (s.kernel[fd] <==> s.cells[fd].ring != []) && s.cells[fd].out == s.kernel[fd]
  {
    RunInv(run, i);
    assert MaskOk(run[i], fd);
  }
}
