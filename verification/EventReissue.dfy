/** When reissuing a descriptor is harmless: exactly when no queued payload still names it.
    Otherwise some continuation hands a payload to the wrong client, whatever the loop is
    doing at that moment and however long the queue and the rings are. */
module EventReissue {
  import opened Framing
  import opened SendModel
  import opened ServerReads
  import opened EventLoop
  import EventOrder
  import opened EventRings
  import opened EventStreams

  /** Every connection's payloads are its own: those handled for it are the first of those
      sent to it, and its socket carries a prefix of those kept. */
  ghost predicate Faithful(s: Loop) {
    forall c :: 0 <= c < |s.hist| ==> ConnOk(s, c)
  }

  /** Connection c, on fd, is open and nothing was ever sent to it or handled for it, and the
      loop is not about to close it. */
  ghost predicate Untouched(s: Loop, fd: Fd, c: nat) {
    && EventOrder.Inv(s) && EventRings.Inv(s)
    && fd in s.cells && s.cells[fd].conn == c && c < |s.hist|
    && s.hist[c].sent == [] && s.hist[c].handled == [] && s.hist[c].wire == [] && s.cells[fd].ring == []
    && Del(fd) !in s.tasks
    && (s.phase.Serving? ==> forall e :: e in s.phase.batch ==> e.fd != fd)
  }

  /** A path whose steps nobody but the loop takes. */
  ghost predicate Leads(path: seq<Loop>, s: Loop) {
    IsPath(path, CAREFUL) && path[0] == s
  }

  lemma Start(s: Loop) returns (path: seq<Loop>)
    ensures Leads(path, s) && Last(path) == s
  {
    path := [s];
  }

  lemma Go(path: seq<Loop>, s: Loop, a: Step) returns (longer: seq<Loop>)
    requires Leads(path, s) && Can(Last(path), a) && !a.Accepted?
    ensures Leads(longer, s) && Last(longer) == Do(Last(path), a)
  {
    Extend(path, a, CAREFUL);
    longer := path + [Do(Last(path), a)];
  }

  lemma Join(p: seq<Loop>, q: seq<Loop>, s: Loop) returns (path: seq<Loop>)
    requires Leads(p, s) && Leads(q, Last(p))
    ensures Leads(path, s) && Last(path) == Last(q)
  {
    JoinPaths(p, q, CAREFUL);
    path := p + q[1..];
  }

  // ---------------------------------------------------------------- back to handleTask

  const IDLE := World([], i => true, i => Broken)

  /** An event served while the socket has nothing to read and takes nothing concerns its
      own client only. */
  lemma IdleEvent(s: Loop, e: Ready)
    ensures var s' := DoEvent(s, e, IDLE);
      && (s'.tasks == s.tasks || s'.tasks == s.tasks + [Del(e.fd)])
      && (forall f :: f in s.cells && f != e.fd ==> f in s'.cells && s'.cells[f] == s.cells[f])
      && |s'.hist| == |s.hist|
      && forall d :: 0 <= d < |s.hist| && (e.fd in s.cells ==> s.cells[e.fd].conn != d) ==> s'.hist[d] == s.hist[d]
  {
    hide SendModel.Send;
    if e.fd in s.cells {
      ReadsIdle(s.buf, s.cells[e.fd].rx, [], IDLE.answers);
    }
    hide Reads;
  }

  lemma ServeIdle(s: Loop, fd: Fd, c: nat)
    requires Untouched(s, fd, c) && s.phase.Serving? && s.phase.batch != []
    ensures var s' := Do(s, Serve(IDLE));
      Untouched(s', fd, c) && s.tasks <= s'.tasks && s'.phase == Serving(s.phase.batch[1..])
  {
    EventOrder.StepInv(s, Serve(IDLE));
    EventRings.StepInv(s, Serve(IDLE));
    assert s.phase.batch[0] in s.phase.batch;
    IdleEvent(s, s.phase.batch[0]);
    hide EventOrder.Inv, RingOk, DoEvent;
  }

  /** Whatever the loop is doing, it gets back to `handleTask` with the tasks it had. */
  lemma {:induction false} BackToTasks(s: Loop, fd: Fd, c: nat) returns (path: seq<Loop>)
    requires Untouched(s, fd, c)
    ensures Leads(path, s) && Untouched(Last(path), fd, c)
    ensures Last(path).phase == Draining && s.tasks <= Last(path).tasks
    decreases match s.phase case Draining => 0 case Serving(batch) => 1 + |batch| case Waiting => 2 case Checking => 3
  {
    path := Start(s);
    if s.phase != Draining {
      var a := NextIdle(s);
      StepIdle(s, fd, c);
      path := Go(path, s, a);
      var rest := BackToTasks(Last(path), fd, c);
      path := Join(path, rest, s);
    }
  }

  function NextIdle(s: Loop): Step
    requires s.phase != Draining
  {
    match s.phase
    case Checking => Checked
    case Waiting => Woken([])
    case Serving(batch) => if batch == [] then Served else Serve(IDLE)
  }

  lemma StepIdle(s: Loop, fd: Fd, c: nat)
    requires Untouched(s, fd, c) && s.phase != Draining
    ensures var a := NextIdle(s);
      && Can(s, a) && Untouched(Do(s, a), fd, c) && s.tasks <= Do(s, a).tasks
      && Do(s, a).phase == match s.phase
                           case Checking => Waiting
                           case Waiting => Serving([])
                           case Serving(batch) => if batch == [] then Draining else Serving(batch[1..])
  {
    var a := NextIdle(s);
    if a.Serve? {
      ServeIdle(s, fd, c);
    } else {
      EventOrder.StepInv(s, a);
      EventRings.StepInv(s, a);
      hide EventOrder.Inv, EventRings.Inv;
    }
  }

  // ---------------------------------------------------------------- to the queued payload

  /** What handling one task means for an open client that is not to be deleted. */
  lemma PopEffect(s: Loop, fd: Fd)
    requires s.phase == Draining && s.tasks != [] && Numbered(s) && fd in s.cells && Del(fd) !in s.tasks
    requires s.tasks[0].Add? ==> s.tasks[0].fd in s.cells
    ensures var s', c := PopTask(s), s.cells[fd].conn;
      && s'.tasks == s.tasks[1..] && s'.phase == Draining && |s'.hist| == |s.hist| && Del(fd) !in s'.tasks
      && fd in s'.cells && s'.cells[fd].conn == c
      && s'.hist[c].sent == s.hist[c].sent && s'.hist[c].wire == s.hist[c].wire
      && s.cells[fd].ring <= s'.cells[fd].ring
      && (!(s.tasks[0].Send? && s.tasks[0].fd == fd) ==> s'.cells[fd].ring == s.cells[fd].ring && s'.hist[c] == s.hist[c])
      && (fd in s.kernel || s.tasks[0] == Add(fd) ==> fd in s'.kernel)
  {
    assert s.tasks[0] in s.tasks;
  }

  lemma PopOther(s: Loop, fd: Fd, c: nat)
    requires Untouched(s, fd, c) && s.phase == Draining && s.tasks != []
    requires !(s.tasks[0].Send? && s.tasks[0].fd == fd)
    ensures var s' := Do(s, Pop); Untouched(s', fd, c) && s'.phase == Draining && s.tasks[1..] == s'.tasks
  {
    hide EventOrder.Inv, RingOk, PopTask;
    PopInvs(s);
    PopEffect(s, fd);
  }

  lemma PopInvs(s: Loop)
    requires EventOrder.Inv(s) && EventRings.Inv(s) && s.phase == Draining && s.tasks != []
    ensures EventOrder.Inv(PopTask(s)) && EventRings.Inv(PopTask(s))
    ensures s.tasks[0].Add? ==> s.tasks[0].fd in s.cells
  {
    EventOrder.PopTaskInv(s);
    EventRings.PopTaskInv(s);
    assert EventOrder.TaskOk(s, 0);
  }

  /** The loop comes to the first payload queued for fd, after handling the j tasks before. */
  lemma {:induction false} ToPayload(s: Loop, fd: Fd, c: nat, k: nat) returns (path: seq<Loop>, j: nat)
    requires Untouched(s, fd, c) && s.phase == Draining
    requires k < |s.tasks| && s.tasks[k].Send? && s.tasks[k].fd == fd
    ensures Leads(path, s) && Untouched(Last(path), fd, c) && Last(path).phase == Draining
    ensures j <= k && s.tasks[j].Send? && s.tasks[j].fd == fd && s.tasks[j..] <= Last(path).tasks
    decreases k
  {
    j := 0;
    path := Start(s);
    if !(s.tasks[0].Send? && s.tasks[0].fd == fd) {
      PopOther(s, fd, c);
      path := Go(path, s, Pop);
      var next := Last(path);
      assert s.tasks[1..][k - 1] == s.tasks[k];
      var rest, i := ToPayload(next, fd, c, k - 1);
      j := i + 1;
      path := Join(path, rest, s);
      assert s.tasks[j] == s.tasks[1..][i] == next.tasks[i];
      assert s.tasks[j..] == s.tasks[1..][i..] <= next.tasks[i..];
    }
  }

  /** A payload queued for somebody else on fd reaches the connection that has fd now. */
  lemma Misdelivers(s: Loop, fd: Fd, c: nat, k: nat) returns (path: seq<Loop>)
    requires Untouched(s, fd, c) && k < |s.tasks| && s.tasks[k].Send? && s.tasks[k].fd == fd
    ensures Leads(path, s) && c < |Last(path).hist| && !ConnOk(Last(path), c)
    ensures Last(path).hist[c].sent == [] && |Last(path).hist[c].handled| == 1
  {
    var first := BackToTasks(s, fd, c);
    var second, j := ToPayload(Last(first), fd, c, k);
    path := Join(first, second, s);
    assert Last(path).tasks[0] == Last(first).tasks[j..][0];
    path := Go(path, s, Pop);
    var none: seq<Handled> := [];
    assert Last(path).hist[c].handled[..0] == none;
  }

  // ---------------------------------------------------------------- the exact condition

  lemma NewIsUntouched(s: Loop, fd: Fd, junk: bool)
    requires EventOrder.Inv(s) && EventRings.Inv(s) && fd !in s.cells
    ensures var s' := Accept(s, fd, junk); Untouched(s', fd, |s.hist|) && s.tasks <= s'.tasks
  {
    EventOrder.StepInv(s, Accepted(fd, junk));
    EventRings.StepInv(s, Accepted(fd, junk));
    NotBusyWith(s, fd);
    hide EventOrder.Inv, EventRings.Inv;
  }

  /** A descriptor that is not open is not registered, queued for deletion or about to be
      served. */
  lemma NotBusyWith(s: Loop, fd: Fd)
    requires EventOrder.Inv(s) && fd !in s.cells
    ensures Del(fd) !in s.tasks && (s.phase.Serving? ==> forall e :: e in s.phase.batch ==> e.fd != fd)
  {
    assert fd in s.kernel ==> EventOrder.MaskOk(s, fd);
    forall i | 0 <= i < |s.tasks| ensures s.tasks[i] != Del(fd) { assert EventOrder.TaskOk(s, i); }
  }

  /** Main theorem: after any careful run, accepting a connection on fd leaves every
      connection's stream its own in every careful continuation, exactly when no queued
      payload names fd. */
  lemma HarmlessIffCareful(run: seq<Loop>, fd: Fd, junk: bool)
    requires IsRun(run, CAREFUL) && fd !in Last(run).cells
    ensures (forall path :: Leads(path, Accept(Last(run), fd, junk)) ==> Faithful(Last(path))) <==>
            forall t :: t in Last(run).tasks && t.Send? ==> t.fd != fd
  {
    var s, a := Last(run), Accepted(fd, junk);
    var s' := Accept(s, fd, junk);
    if forall t :: t in s.tasks && t.Send? ==> t.fd != fd {
      PathInv(run, |run| - 1);
      EventStreams.StepInv(s, a);
      forall path | Leads(path, s') ensures Faithful(Last(path)) {
        PathInv(path, |path| - 1);
      }
    } else {
      FreePath(run, CAREFUL);
      EventOrder.RunInv(run, |run| - 1);
      EventRings.RunInv(run, |run| - 1);
      NewIsUntouched(s, fd, junk);
      var k :| 0 <= k < |s.tasks| && s.tasks[k].Send? && s.tasks[k].fd == fd;
      var path := Misdelivers(s', fd, |s.hist|, k);
      assert !Faithful(Last(path));
    }
  }

  // ---------------------------------------------------------------- down to the socket

  /** What was meant for somebody else leads the ring of connection c, which is registered or
      about to be. */
  ghost predicate Carrying(s: Loop, fd: Fd, c: nat, data: seq<Byte>) {
    && EventOrder.Inv(s) && EventRings.Inv(s)
    && fd in s.cells && s.cells[fd].conn == c && c < |s.hist|
    && s.hist[c].sent == [] && s.hist[c].wire == []
    && s.cells[fd].ring != [] && s.cells[fd].ring[0] == data
    && s.phase == Draining && Del(fd) !in s.tasks && (fd in s.kernel || Add(fd) in s.tasks)
  }

  lemma PopCarrying(s: Loop, fd: Fd, c: nat, data: seq<Byte>)
    requires Carrying(s, fd, c, data) && s.tasks != []
    ensures Carrying(Do(s, Pop), fd, c, data) && Do(s, Pop).tasks == s.tasks[1..]
  {
    hide EventOrder.Inv, RingOk, PopTask;
    PopInvs(s);
    PopEffect(s, fd);
    assert s.tasks == [s.tasks[0]] + s.tasks[1..];
  }

  lemma {:induction false} DrainCarrying(s: Loop, fd: Fd, c: nat, data: seq<Byte>) returns (path: seq<Loop>)
    requires Carrying(s, fd, c, data)
    ensures Leads(path, s) && Carrying(Last(path), fd, c, data) && Last(path).tasks == []
    decreases |s.tasks|
  {
    path := Start(s);
    if s.tasks != [] {
      PopCarrying(s, fd, c, data);
      path := Go(path, s, Pop);
      var rest := DrainCarrying(Last(path), fd, c, data);
      path := Join(path, rest, s);
    }
  }

  /** A socket that takes one byte and then fails. */
  const ONE_BYTE: Results := i => if i == 0 then Wrote(1) else Broken

  lemma SendOneByte(ring: seq<seq<Byte>>)
    requires ring != [] && ring[0] != []
    ensures SendModel.Send(Progress(ring, [], 0), ONE_BYTE, MAX_SEND_TIMES).wire == ring[0][..1]
  {
    var p := Progress(ring, [], 0);
    SendByTurns(p, ONE_BYTE, MAX_SEND_TIMES);
    var q := Turn(p, ONE_BYTE);
    assert q.wire == ring[0][..1];
    if GoesOn(p, ONE_BYTE) && q.queue != [] {
      SendByTurns(q, ONE_BYTE, MAX_SEND_TIMES - 1);
    } else if GoesOn(p, ONE_BYTE) {
      SendIdle(q, ONE_BYTE, MAX_SEND_TIMES - 1);
    }
  }

  /** From there the first byte goes out to the wrong client. */
  lemma OutToSocket(s: Loop, fd: Fd, c: nat, data: seq<Byte>) returns (path: seq<Loop>)
    requires Carrying(s, fd, c, data) && data != []
    ensures Leads(path, s) && c < |Last(path).hist|
    ensures Last(path).hist[c].sent == [] && Last(path).hist[c].wire == data[..1]
  {
    path := DrainCarrying(s, fd, c, data);
    var drained := Last(path);
    path := Go(path, s, Drained);
    path := Go(path, s, Checked);
    var batch := [Ready(fd, false, false, true)];
    path := Go(path, s, Woken(batch));
    assert Last(path).cells[fd].ring == drained.cells[fd].ring;
    SendOneByte(drained.cells[fd].ring);
    assert PastOf(drained.hist, c).wire + data[..1] == data[..1];
    hide SendModel.Send, EventOrder.Inv, RingOk;
    path := Go(path, s, Serve(World([], i => true, ONE_BYTE)));
  }

  /** Misdelivery down to the wire: if the queue has room for the new client's registration
      and its ring for a payload, bytes meant for the former client go out to the new one. */
  lemma ReissueReachesWire(run: seq<Loop>, fd: Fd, junk: bool, k: nat) returns (path: seq<Loop>)
    requires IsRun(run, FREE) && fd !in Last(run).cells && |Last(run).tasks| < Last(run).cap && Last(run).slots >= 2
    requires k < |Last(run).tasks| && Last(run).tasks[k].Send? && Last(run).tasks[k].fd == fd
    requires forall t :: t in Last(run).tasks && t.Send? && t.fd == fd ==> t.data != []
    ensures Leads(path, Accept(Last(run), fd, junk))
    ensures var c := |Last(run).hist|;
      c < |Last(path).hist| && Last(path).hist[c].sent == [] && Last(path).hist[c].wire != []
  {
    var before, s, c := Last(run), Accept(Last(run), fd, junk), |Last(run).hist|;
    EventOrder.RunInv(run, |run| - 1);
    EventRings.RunInv(run, |run| - 1);
    NewIsUntouched(before, fd, junk);
    var first := BackToTasks(s, fd, c);
    var second, j := ToPayload(Last(first), fd, c, k);
    path := Join(first, second, s);
    var here := Last(path);
    var data := before.tasks[j].data;
    assert Last(first).tasks[j] == s.tasks[j] == before.tasks[j] && before.tasks[j] in before.tasks;
    assert here.tasks[0] == Last(first).tasks[j..][0];
    RegistrationFollows(before, s, Last(first), here, fd, j);
    FreePath(path, CAREFUL);
    SlotsStay(path, |path| - 1);
    BecomesCarrying(here, fd, c, data);
    path := Go(path, s, Pop);
    var rest := OutToSocket(Last(path), fd, c, data);
    path := Join(path, rest, s);
  }

  lemma RegistrationFollows(before: Loop, s: Loop, drained: Loop, here: Loop, fd: Fd, j: nat)
    requires s.tasks == before.tasks + [Add(fd)] && s.tasks <= drained.tasks && j < |before.tasks|
    requires drained.tasks[j..] <= here.tasks
    ensures Add(fd) in here.tasks[1..]
  {
    var n := |before.tasks|;
    assert drained.tasks[n] == s.tasks[n] == Add(fd);
    assert drained.tasks[j..][n - j] == drained.tasks[n];
    assert here.tasks[n - j] == Add(fd) && here.tasks[1..][n - j - 1] == here.tasks[n - j];
  }

  lemma BecomesCarrying(s: Loop, fd: Fd, c: nat, data: seq<Byte>)
    requires Untouched(s, fd, c) && s.phase == Draining && s.slots >= 2
    requires s.tasks != [] && s.tasks[0].Send? && s.tasks[0].fd == fd && s.tasks[0].data == data && Add(fd) in s.tasks[1..]
    ensures Carrying(Do(s, Pop), fd, c, data)
  {
    EventOrder.StepInv(s, Pop);
    EventRings.StepInv(s, Pop);
    hide EventOrder.Inv, EventRings.Inv;
  }

  // ---------------------------------------------------------------- which queues are safe

  /** A client has connected and hung up, and its deletion is queued. */
  lemma HungUp(cap: nat, slots: nat, buf: nat, fd: Fd) returns (run: seq<Loop>)
    requires cap >= 2
    ensures IsRun(run, CAREFUL) && run[0] == Boot(cap, slots, buf)
    ensures var s := Last(run);
      && s.tasks == [Del(fd)] && s.phase == Serving([]) && s.cap == cap && s.slots == slots
      && fd in s.cells && s.cells[fd].conn == 0 && |s.hist| == 1
  {
    hide Reads, SendModel.Send;
    var s := Boot(cap, slots, buf);
    run := Start(s);
    Extend(run, Accepted(fd, false), CAREFUL);
    run := run + [Do(Last(run), Accepted(fd, false))];
    run := Go(run, s, Pop);
    run := Go(run, s, Drained);
    run := Go(run, s, Checked);
    run := Go(run, s, Woken([Ready(fd, true, false, false)]));
    run := Go(run, s, Serve(IDLE));
  }

  /** A careless accept can happen: the client hangs up with a payload queued behind its
      deletion, and the loop closes the descriptor before it gets to the payload. */
  lemma CarelessAccept(cap: nat, slots: nat, buf: nat, fd: Fd, data: seq<Byte>) returns (run: seq<Loop>)
    requires cap >= 2
    ensures IsRun(run, CAREFUL) && IsRun(run, FREE) && run[0] == Boot(cap, slots, buf)
    ensures fd !in Last(run).cells && Last(run).tasks == [Send(fd, data, 0)]
    ensures Last(run).cap == cap && Last(run).slots == slots && |Last(run).hist| == 1
  {
    run := HungUp(cap, slots, buf, fd);
    hide Reads, SendModel.Send;
    var s := run[0];
    run := Go(run, s, SentBy(fd, data));
    assert Last(run).tasks == [Del(fd), Send(fd, data, 0)];
    run := Go(run, s, Served);
    run := Go(run, s, Pop);
    FreePath(run, CAREFUL);
  }

  /** For every queue of at least two tasks and every ring of at least two slots there is a
      run in which the bytes of a payload accepted for one connection go out to the next. */
  lemma ReissueMisdelivers(cap: nat, slots: nat, buf: nat, fd: Fd, data: seq<Byte>) returns (run: seq<Loop>)
    requires cap >= 2 && slots >= 2 && data != []
    ensures IsRun(run, FREE) && run[0] == Boot(cap, slots, buf)
    ensures |Last(run).hist| >= 2 && Last(run).hist[1].sent == [] && Last(run).hist[1].wire != []
  {
    var first := CarelessAccept(cap, slots, buf, fd, data);
    var a := Accepted(fd, false);
    var path := ReissueReachesWire(first, fd, false, 0);
    Extend(first, a, FREE);
    FreePath(path, CAREFUL);
    JoinPaths(first + [Do(Last(first), a)], path, FREE);
    run := first + [Do(Last(first), a)] + path[1..];
  }

  /** With a queue of at most one task, every queued payload names an open descriptor. */
  ghost predicate OneTask(s: Loop) {
    s.cap <= 1 && |s.tasks| <= s.cap && forall t :: t in s.tasks && t.Send? ==> t.fd in s.cells
  }

  lemma OneTaskStep(s: Loop, a: Step)
    requires OneTask(s) && Can(s, a)
    ensures OneTask(Do(s, a)) && Careful(s, a)
  {
    hide Reads, SendModel.Send;
    if a.Pop? {
      assert s.tasks == [s.tasks[0]];
    } else if a.Serve? {
      ServeOneTask(s, s.phase.batch[0], a.world);
      hide DoEvent;
    }
  }

  lemma ServeOneTask(s: Loop, e: Ready, w: World)
    requires OneTask(s)
    ensures OneTask(DoEvent(s, e, w))
  {
    hide Reads, SendModel.Send;
  }

  lemma {:induction false} OneTaskRun(run: seq<Loop>, i: nat)
    requires IsRun(run, FREE) && i < |run| && run[0].cap <= 1
    ensures OneTask(run[i]) && (i > 0 ==> StepAt(run, i - 1, CAREFUL))
  {
    if i > 0 {
      OneTaskRun(run, i - 1);
      assert StepAt(run, i - 1, FREE);
      var a :| Allowed(run[i - 1], a, FREE) && run[i] == Do(run[i - 1], a);
      OneTaskStep(run[i - 1], a);
      assert Allowed(run[i - 1], a, CAREFUL);
    }
  }

  /** Without any care about descriptors, no run misdelivers exactly when the task queue holds
      at most one task. */
  lemma NeverMisdeliversIff(cap: nat, slots: nat, buf: nat)
    ensures (forall run :: IsRun(run, FREE) && run[0] == Boot(cap, slots, buf) ==> Faithful(Last(run))) <==> cap <= 1
  {
    if cap <= 1 {
      forall run | IsRun(run, FREE) && run[0] == Boot(cap, slots, buf) ensures Faithful(Last(run)) {
        forall i | 0 <= i < |run| - 1 ensures StepAt(run, i, CAREFUL) {
          OneTaskRun(run, i + 1);
        }
        PathInv(run, |run| - 1);
      }
    } else {
      var first := CarelessAccept(cap, slots, buf, 0, []);
      var s, a := Last(first), Accepted(0, false);
      EventOrder.RunInv(first, |first| - 1);
      EventRings.RunInv(first, |first| - 1);
      NewIsUntouched(s, 0, false);
      var path := Misdelivers(Do(s, a), 0, |s.hist|, 0);
      Extend(first, a, FREE);
      FreePath(path, CAREFUL);
      JoinPaths(first + [Do(s, a)], path, FREE);
      assert !Faithful(Last(first + [Do(s, a)] + path[1..]));
    }
  }
}
