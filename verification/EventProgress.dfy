/** What the event loop gets done: what each kind of event causes, and that whatever `addTask`,
    `delTask` and `sendTask` put into the queue has been carried out when the loop next leaves
    `handleTask` (base/src/tcp_server/cell_manager.cpp). */
module EventProgress {
  import opened Framing
  import opened SendModel
  import opened ServerReceive
  import opened ServerReads
  import opened EventLoop
  import EventOrder
  import opened EventRings
  import opened EventStreams

  // ---------------------------------------------------------------- what sendTask answers

  /** The payload, and nothing else, has been added both to what was sent to the connection on
      fd and to what is queued for it. */
  ghost predicate Queues(s: Loop, s': Loop, fd: Fd, data: seq<Byte>) {
    && fd in s.cells && |s'.hist| == |s.hist|
    && forall c :: 0 <= c < |s.hist| ==>
         var more := if c == s.cells[fd].conn then [data] else [];
         s'.hist[c].sent == s.hist[c].sent + more && Queued(s'.tasks, c) == Queued(s.tasks, c) + more
  }

  /** `sendTask` returns success iff the client is in the table and the queue has room, which is
      iff the payload is queued for it; otherwise nothing changes. */
  lemma SendTaskAnswer(s: Loop, fd: Fd, data: seq<Byte>)
    requires Numbered(s)
    ensures var (s', ok) := SendTask(s, fd, data);
      && (ok <==> fd in s.cells && |s.tasks| < s.cap)
      && (ok <==> Queues(s, s', fd, data))
      && (!ok ==> s' == s)
  {
    var (s', ok) := SendTask(s, fd, data);
    if fd in s.cells {
      var c := s.cells[fd].conn;
      forall d | 0 <= d < |s.hist|
        ensures Queued(s.tasks + [Send(fd, data, c)], d) == Queued(s.tasks, d) + if d == c then [data] else []
      {
        QueuedAppend(s.tasks, Send(fd, data, c), d);
      }
      assert !ok ==> |s'.hist[c].sent| != |s.hist[c].sent + [data]|;
    }
  }

  /** The steps a run took. */
  ghost predicate Took(run: seq<Loop>, steps: seq<Step>) {
    && |run| == |steps| + 1 && run[0] == Boot(run[0].cap, run[0].slots, run[0].buf)
    && forall i :: 0 <= i < |steps| ==> Can(run[i], steps[i]) && run[i + 1] == Do(run[i], steps[i])
  }

  /** The payloads of all `sendTask` calls for connection c that returned success, in order. */
  ghost function Successes(run: seq<Loop>, steps: seq<Step>, c: nat): seq<seq<Byte>>
    requires |run| == |steps| + 1
    decreases |steps|
  {
    if steps == [] then []
    else
      var n := |steps| - 1;
      var s, a := run[n], steps[n];
      Successes(run[..n + 1], steps[..n], c) +
      if a.SentBy? && SendTask(s, a.fd, a.data).1 && a.fd in s.cells && s.cells[a.fd].conn == c then [a.data] else []
  }

  lemma SentGrows(s: Loop, a: Step, c: nat)
    requires Numbered(s) && Can(s, a)
    ensures PastOf(Do(s, a).hist, c).sent == PastOf(s.hist, c).sent +
            if a.SentBy? && SendTask(s, a.fd, a.data).1 && a.fd in s.cells && s.cells[a.fd].conn == c then [a.data] else []
  {
    assert PastOf(s.hist, c).sent + [] == PastOf(s.hist, c).sent;
    if a.Serve? {
      ServingSends(s, s.phase.batch[0], a.world, c);
      hide DoEvent;
    } else if a.Pop? {
      hide HandleAdd, HandleDel;
    }
  }

  lemma ServingSends(s: Loop, e: Ready, w: World, c: nat)
    ensures PastOf(DoEvent(s, e, w).hist, c).sent == PastOf(s.hist, c).sent
  {
    hide Reads, SendModel.Send;
  }

  /** What `StreamsArrive` and `FramesArrive` call sent is just that. */
  lemma {:induction false} SentIsSuccesses(run: seq<Loop>, steps: seq<Step>, c: nat)
    requires Took(run, steps)
    ensures EventRings.Inv(run[|steps|]) && PastOf(run[|steps|].hist, c).sent == Successes(run, steps, c)
    decreases |steps|
  {
    if steps != [] {
      hide Can, Do, Numbered, RingOk;
      var n := |steps| - 1;
      SentIsSuccesses(run[..n + 1], steps[..n], c);
      EventRings.StepInv(run[n], steps[n]);
      SentGrows(run[n], steps[n], c);
    }
  }

  // ---------------------------------------------------------------- what an event causes

  /** The loop is to close the client: it hung up, or a `read` found an error or the end. */
  ghost predicate Ends(s: Loop, e: Ready, w: World) {
    e.hup || (e.readable && e.fd in s.cells && MetFatal(w.script, Reads(s.buf, s.cells[e.fd].rx, w.script, w.answers).rest))
  }

  /** Callbacks for data, one a read, and one for the error if the buffer has become full. */
  ghost predicate CallsBack(trace: seq<Callback>, trace': seq<Callback>, fd: Fd, times: nat, full: bool) {
    && |trace'| == |trace| + times + (if full then 1 else 0) && trace <= trace'
    && (forall i :: |trace| <= i < |trace| + times ==> trace'[i] == OnRecvData(fd))
    && (full ==> trace'[|trace'| - 1] == OnError(fd))
  }

  lemma CallsMade(trace: seq<Callback>, fd: Fd, r: Received)
    ensures CallsBack(trace, trace + Calls(fd, r), fd, r.callbacks, r.full)
  {
  }

  /** The bytes the socket had were read into the buffer of fd's client, with their callbacks. */
  ghost predicate Reading(s: Loop, s': Loop, fd: Fd, script: seq<ReadResult>, answers: Answers) {
    && OnlyClient(s, s', fd) && s.cells[fd].conn < |s.hist|
    && var cell, cell', c := s.cells[fd], s'.cells[fd], s.cells[fd].conn;
       var r := Reads(s.buf, cell.rx, script, answers);
       && cell'.rx == r.session && s'.hist[c].read == s.hist[c].read + r.read
       && CallsBack(s.trace, s'.trace, fd, r.callbacks, Jammed(s.buf, r.session) && !Jammed(s.buf, cell.rx))
  }

  ghost predicate NotReading(s: Loop, s': Loop, fd: Fd) {
    && OnlyClient(s, s', fd) && s.cells[fd].conn < |s.hist|
    && var c := s.cells[fd].conn;
       s'.cells[fd].rx == s.cells[fd].rx && s'.hist[c].read == s.hist[c].read && s'.trace == s.trace
  }

  /** What the socket took of the ring of fd's client was written. */
  ghost predicate Writing(s: Loop, s': Loop, fd: Fd, results: Results) {
    && OnlyClient(s, s', fd) && s.cells[fd].conn < |s.hist|
    && var c := s.cells[fd].conn;
       var p := SendModel.Send(Progress(s.cells[fd].ring, [], 0), results, MAX_SEND_TIMES);
       s'.cells[fd].ring == p.queue && s'.hist[c].wire == s.hist[c].wire + p.wire
  }

  ghost predicate NotWriting(s: Loop, s': Loop, fd: Fd) {
    && OnlyClient(s, s', fd) && s.cells[fd].conn < |s.hist|
    && var c := s.cells[fd].conn;
       s'.cells[fd].ring == s.cells[fd].ring && s'.hist[c].wire == s.hist[c].wire
  }

  /** The rest of the state, save for tasks, trace and phase. */
  ghost predicate SameRest(s: Loop, s': Loop) {
    s'.kernel == s.kernel && s'.cap == s.cap && s'.slots == s.slots && s'.buf == s.buf
  }

  lemma RecvCauses(s: Loop, fd: Fd, script: seq<ReadResult>, answers: Answers)
    requires Numbered(s) && fd in s.cells
    ensures var s', r := DoRecv(s, fd, script, answers), Reads(s.buf, s.cells[fd].rx, script, answers);
      && Reading(s, s', fd, script, answers) && NotWriting(s, s', fd) && SameRest(s, s') && s'.phase == s.phase
      && s'.tasks == s.tasks + (if MetFatal(script, r.rest) && |s.tasks| < s.cap then [Del(fd)] else [])
  {
    hide Reading, NotWriting, Reads, MetFatal;
    RecvReads(s, fd, script, answers);
    RecvEnds(s, fd, script, answers);
  }

  lemma RecvReads(s: Loop, fd: Fd, script: seq<ReadResult>, answers: Answers)
    requires Numbered(s) && fd in s.cells
    ensures var s' := DoRecv(s, fd, script, answers);
      Reading(s, s', fd, script, answers) && NotWriting(s, s', fd) && SameRest(s, s') && s'.phase == s.phase
  {
    hide Reads, MetFatal, Remaining, CallsBack, Calls, Jammed;
    var r := Reads(s.buf, s.cells[fd].rx, script, answers);
    ReadsStop(s.buf, s.cells[fd].rx, script, answers);
    CallsMade(s.trace, fd, r);
  }

  lemma RecvEnds(s: Loop, fd: Fd, script: seq<ReadResult>, answers: Answers)
    requires fd in s.cells
    ensures var r := Reads(s.buf, s.cells[fd].rx, script, answers);
      DoRecv(s, fd, script, answers).tasks == s.tasks + if MetFatal(script, r.rest) && |s.tasks| < s.cap then [Del(fd)] else []
  {
    hide Reads, MetFatal, Remaining, Record;
    ReadsStop(s.buf, s.cells[fd].rx, script, answers);
    assert s.tasks + [] == s.tasks;
  }

  lemma SendCauses(s: Loop, fd: Fd, results: Results)
    requires Numbered(s) && fd in s.cells
    ensures var s' := DoSend(s, fd, results);
      && Writing(s, s', fd, results) && NotReading(s, s', fd) && SameRest(s, s') && s'.phase == s.phase && s'.tasks == s.tasks
  {
    hide SendModel.Send;
  }

  lemma NothingHappens(s: Loop, fd: Fd)
    requires Numbered(s) && fd in s.cells
    ensures NotReading(s, s, fd) && NotWriting(s, s, fd)
  {
  }

  /** First the reads, then the writes, then whatever changes neither. */
  lemma ReadsThenWrites(s: Loop, s1: Loop, s2: Loop, s': Loop, fd: Fd, w: World)
    requires s' == s2.(phase := s'.phase, tasks := s'.tasks)
    ensures Reading(s, s1, fd, w.script, w.answers) && NotReading(s1, s2, fd) ==> Reading(s, s', fd, w.script, w.answers)
    ensures NotReading(s, s1, fd) && NotReading(s1, s2, fd) ==> NotReading(s, s', fd)
    ensures NotWriting(s, s1, fd) && Writing(s1, s2, fd, w.results) ==> Writing(s, s', fd, w.results)
    ensures NotWriting(s, s1, fd) && NotWriting(s1, s2, fd) ==> NotWriting(s, s', fd)
  {
    hide Reads, SendModel.Send, CallsBack, Jammed;
  }

  /** What serving one event causes. A hang-up: only the deletion. Otherwise, and whether or not
      the other is reported too: if readable, the reads and their callbacks; if writable, the
      writes; and a deletion iff the reads met an error or the end. No other client is touched. */
  lemma ServeCauses(s: Loop, w: World)
    requires EventOrder.Inv(s) && Numbered(s) && s.phase.Serving? && s.phase.batch != []
    ensures var e, s' := s.phase.batch[0], Do(s, Serve(w));
      && (if !e.hup && e.readable then Reading(s, s', e.fd, w.script, w.answers) else NotReading(s, s', e.fd))
      && (if !e.hup && e.writable then Writing(s, s', e.fd, w.results) else NotWriting(s, s', e.fd))
      && s'.tasks == s.tasks + (if Ends(s, e, w) && |s.tasks| < s.cap then [Del(e.fd)] else [])
      && s'.phase == Serving(s.phase.batch[1..]) && SameRest(s, s')
  {
    hide EventOrder.Inv, MetFatal, Reads, DoRecv, DoSend, Reading, NotReading, Writing, NotWriting;
    ServesOpen(s);
    var e := s.phase.batch[0];
    var s1 := if !e.hup && e.readable then DoRecv(s, e.fd, w.script, w.answers) else s;
    var s2 := if !e.hup && e.writable then DoSend(s1, e.fd, w.results) else s1;
    var s' := Do(s, Serve(w));
    assert s' == s2.(phase := s'.phase, tasks := s'.tasks) && s'.phase == Serving(s.phase.batch[1..]);
    NothingHappens(s, e.fd);
    RecvCauses(s, e.fd, w.script, w.answers);
    StillThere(s, s1, e.fd, w);
    NothingHappens(s1, e.fd);
    SendCauses(s1, e.fd, w.results);
    ReadsThenWrites(s, s1, s2, s', e.fd, w);
    assert s.tasks + [] == s.tasks;
  }

  lemma ServesOpen(s: Loop)
    requires EventOrder.Inv(s) && s.phase.Serving? && s.phase.batch != []
    ensures s.phase.batch[0].fd in s.cells
  {
    assert s.phase.batch[0] in s.phase.batch && EventOrder.MaskOk(s, s.phase.batch[0].fd);
  }

  lemma StillThere(s: Loop, s1: Loop, fd: Fd, w: World)
    requires Numbered(s) && fd in s.cells && (s1 == s || s1 == DoRecv(s, fd, w.script, w.answers))
    ensures Numbered(s1) && fd in s1.cells
  {
    hide Reads;
  }

  // ---------------------------------------------------------------- what is queued

  /** The task a step is to put into the queue, if there is room. */
  ghost function Orders(s: Loop, a: Step): seq<Task> {
    match a
    case Accepted(fd, _) => [Add(fd)]
    case SentBy(fd, data) => if fd in s.cells then [Send(fd, data, s.cells[fd].conn)] else []
    case Serve(w) => if s.phase.Serving? && s.phase.batch != [] && Ends(s, s.phase.batch[0], w) then [Del(s.phase.batch[0].fd)] else []
    case _ => []
  }

  lemma OrdersQueued(s: Loop, a: Step)
    requires EventOrder.Inv(s) && Numbered(s) && Can(s, a)
    ensures Do(s, a).tasks == (if a.Pop? then s.tasks[1..] else s.tasks) + if |s.tasks| < s.cap then Orders(s, a) else []
  {
    if a.Serve? {
      ServeCauses(s, a.world);
    } else {
      if a.Pop? {
        assert EventOrder.TaskOk(s, 0);
      }
      hide EventOrder.Inv;
    }
  }

  // ---------------------------------------------------------------- what is carried out

  /** The step from s to s' did what the task asks for: registered the client and told the
      callback, closed it and told the callback, or handled the payload for whoever has the
      descriptor, if anyone. */
  ghost predicate Done(s: Loop, s': Loop, t: Task) {
    match t
    case Add(fd) => fd in s'.cells && fd in s'.kernel && s'.trace == s.trace + [OnConnect(fd)]
    case Del(fd) => fd in s.cells && fd !in s'.cells && fd !in s'.kernel && s'.trace == s.trace + [OnDisconnect(fd)]
    case Send(fd, data, _) =>
      if fd !in s.cells then s' == s.(tasks := s'.tasks)
      else
        var h, h' := PastOf(s.hist, s.cells[fd].conn).handled, PastOf(s'.hist, s.cells[fd].conn).handled;
        && s.cells[fd].conn < |s.hist| && h' == h + [Handled(data, |s.cells[fd].ring| + 1 < s.slots)]
        && fd in s'.cells && s'.cells[fd].ring == s.cells[fd].ring + Kept(h')[|Kept(h)|..]
  }

  lemma PopDoes(s: Loop)
    requires EventOrder.Inv(s) && Numbered(s) && s.phase == Draining && s.tasks != []
    ensures Done(s, Do(s, Pop), s.tasks[0])
  {
    var t := s.tasks[0];
    assert EventOrder.TaskOk(s, 0);
    assert t.Del? ==> EventOrder.MaskOk(s, t.fd);
    hide EventOrder.Inv, Kept, Datas;
    if t.Send? {
      PopsPayload(s, t.fd, t.data);
      hide Done;
    }
  }

  lemma PopsPayload(s: Loop, fd: Fd, data: seq<Byte>)
    requires Numbered(s) && s.tasks != [] && s.tasks[0].Send? && s.tasks[0].fd == fd && s.tasks[0].data == data
    ensures Done(s, Do(s, Pop), s.tasks[0])
  {
    hide Kept, Datas;
    if fd in s.cells {
      var ring := s.cells[fd].ring;
      KeptLast(PastOf(s.hist, s.cells[fd].conn).handled, Handled(data, |ring| + 1 < s.slots));
      assert ring + [] == ring;
    }
  }

  lemma KeptLast(h: seq<Handled>, x: Handled)
    ensures Kept(h + [x])[|Kept(h)|..] == if x.kept then [x.data] else []
    ensures Kept(h) <= Kept(h + [x])
  {
    HandledAppend(h, x);
  }

  /** A task leaves the queue only when it is its turn. */
  lemma StaysQueued(s: Loop, a: Step, t: Task)
    requires EventOrder.Inv(s) && Numbered(s) && Can(s, a) && t in s.tasks && !(a.Pop? && s.tasks[0] == t)
    ensures t in Do(s, a).tasks
  {
    OrdersQueued(s, a);
    if a.Pop? {
      assert s.tasks == [s.tasks[0]] + s.tasks[1..];
    }
  }

  lemma {:induction false} CarriedOut(run: seq<Loop>, i: nat, k: nat, t: Task) returns (m: nat)
    requires IsRun(run, FREE) && i <= k < |run| && t in run[i].tasks && t !in run[k].tasks
    ensures i <= m < k && Done(run[m], run[m + 1], t)
    decreases k - i
  {
    hide EventOrder.Inv, Numbered, Do, Done;
    EventOrder.RunInv(run, i);
    EventRings.RunInv(run, i);
    assert StepAt(run, i, FREE);
    var a :| Allowed(run[i], a, FREE) && run[i + 1] == Do(run[i], a);
    if a.Pop? && run[i].tasks[0] == t {
      PopDoes(run[i]);
      m := i;
    } else {
      StaysQueued(run[i], a, t);
      m := CarriedOut(run, i + 1, k, t);
    }
  }

  /** From step k the loop leaves `handleTask`. */
  ghost predicate LeavesTasks(run: seq<Loop>, k: nat) {
    k + 1 < |run| && run[k].phase == Draining && run[k + 1].phase == Checking
  }

  lemma LeavesNothing(run: seq<Loop>, k: nat)
    requires IsRun(run, FREE) && LeavesTasks(run, k)
    ensures run[k].tasks == []
  {
    hide Reads, SendModel.Send;
    assert StepAt(run, k, FREE);
  }

  /** Main theorem: in every run, whatever other threads do meanwhile, what a step has ordered
      while the queue had room has been carried out when the loop next leaves `handleTask`:
      an accepted client is registered and announced; a payload whose `sendTask` succeeded is
      handled for whoever has the descriptor then; a client that hung up, or whose `read` met
      an error or the end, is closed and reported disconnected. */
  lemma OrdersAreCarriedOut(run: seq<Loop>, i: nat, k: nat, a: Step, t: Task) returns (m: nat)
    requires IsRun(run, FREE) && i < k && LeavesTasks(run, k)
    requires Can(run[i], a) && run[i + 1] == Do(run[i], a) && |run[i].tasks| < run[i].cap && t in Orders(run[i], a)
    ensures i < m < k && Done(run[m], run[m + 1], t)
  {
    hide EventOrder.Inv, Numbered, Do, Done, Orders, Can;
    EventOrder.RunInv(run, i);
    EventRings.RunInv(run, i);
    OrdersQueued(run[i], a);
    LeavesNothing(run, k);
    m := CarriedOut(run, i + 1, k, t);
  }

  // ---------------------------------------------------------------- everything is written

  /** Main theorem: in every careful run, when a socket reported writable and not hung up takes
      whole payloads whenever it answers, and answers often enough within one `doSend`, then
      afterwards all that was ever kept for the client has been written, unless an empty
      payload was among it; and all that was sent, too, if nothing is queued or was dropped. */
  lemma EverythingWritten(run: seq<Loop>, i: nat, w: World)
    requires IsRun(run, CAREFUL) && i + 1 < |run| && run[i].phase.Serving? && run[i].phase.batch != []
    requires run[i + 1] == Do(run[i], Serve(w))
    requires var e := run[i].phase.batch[0];
      && !e.hup && e.writable && e.fd in run[i].cells
      && var ring := run[i].cells[e.fd].ring; Willing(ring, w.results) && Answered(w.results, 0, MAX_SEND_TIMES) >= |ring|
    ensures var s', c := run[i + 1], run[i].cells[run[i].phase.batch[0].fd].conn;
      c < |s'.hist| && ([] !in Kept(s'.hist[c].handled) ==>
        && s'.hist[c].wire == Flatten(Kept(s'.hist[c].handled))
        && (Queued(s'.tasks, c) == [] && (forall h :: h in s'.hist[c].handled ==> h.kept) ==>
              s'.hist[c].wire == Flatten(s'.hist[c].sent)))
  {
    KeepsAll(run, i);
    KeepsAll(run, i + 1);
    hide EventOrder.Inv, EventRings.Inv, EventStreams.Inv, Do, Kept, SendModel.Send, Reads, IsRun, Flatten;
    ServedWilling(run[i], run[i + 1], w);
  }

  lemma KeepsAll(run: seq<Loop>, i: nat)
    requires IsRun(run, CAREFUL) && i < |run|
    ensures EventOrder.Inv(run[i]) && EventRings.Inv(run[i]) && EventStreams.Inv(run[i])
  {
    FreePath(run, CAREFUL);
    EventOrder.RunInv(run, i);
    EventRings.RunInv(run, i);
    PathInv(run, i);
  }

  lemma ServedWilling(s: Loop, s': Loop, w: World)
    requires EventOrder.Inv(s) && EventRings.Inv(s) && EventRings.Inv(s') && EventStreams.Inv(s')
    requires s.phase.Serving? && s.phase.batch != [] && s' == Do(s, Serve(w))
    requires var e := s.phase.batch[0];
      && !e.hup && e.writable && e.fd in s.cells
      && var ring := s.cells[e.fd].ring; Willing(ring, w.results) && Answered(w.results, 0, MAX_SEND_TIMES) >= |ring|
    ensures var c := s.cells[s.phase.batch[0].fd].conn;
      c < |s'.hist| && ([] !in Kept(s'.hist[c].handled) ==>
        && s'.hist[c].wire == Flatten(Kept(s'.hist[c].handled))
        && (Queued(s'.tasks, c) == [] && (forall h :: h in s'.hist[c].handled ==> h.kept) ==>
              s'.hist[c].wire == Flatten(s'.hist[c].sent)))
  {
    hide EventOrder.Inv, Do, Kept, Datas, SendModel.Send, Reads, Flatten, Reading, NotReading;
    var fd := s.phase.batch[0].fd;
    var ring, c := s.cells[fd].ring, s.cells[fd].conn;
    ServeCauses(s, w);
    assert LiveOk(s', fd) && RingOk(s', fd);
    DrainsIff(Progress(ring, [], 0), w.results, MAX_SEND_TIMES);
    SendKeepsEmpty(Progress(ring, [], 0), w.results, MAX_SEND_TIMES);
    if [] !in Kept(s'.hist[c].handled) {
      assert forall k :: 0 <= k < |ring| ==> ring[k] in ring;
      FlattenNothing(s'.hist[c].wire);
      if forall h :: h in s'.hist[c].handled ==> h.kept {
        AllKept(s'.hist[c].handled);
        assert Datas(s'.hist[c].handled) + [] == Datas(s'.hist[c].handled);
      }
    }
  }

  lemma FlattenNothing(wire: seq<Byte>)
    ensures wire + Flatten([]) == wire
  {
  }

  lemma {:induction false} AllKept(h: seq<Handled>)
    requires forall x :: x in h ==> x.kept
    ensures Kept(h) == Datas(h)
    decreases |h|
  {
    if h != [] {
      AllKept(h[..|h| - 1]);
    }
  }
}
