/** What arrives at each client: when descriptors are reissued with care, the bytes written to
    a connection are the payloads sent to that connection, in order. */
module EventStreams {
  import opened Framing
  import opened SendModel
  import opened ServerReads
  import opened EventLoop
  import opened EventRings

  /** Queued payloads that were meant for connection c. */
  function Queued(tasks: seq<Task>, c: nat): seq<seq<Byte>> {
    if tasks == [] then []
    else if tasks[0].Send? && tasks[0].aim == c then [tasks[0].data] + Queued(tasks[1..], c)
    else Queued(tasks[1..], c)
  }

  lemma {:induction false} QueuedAppend(tasks: seq<Task>, t: Task, c: nat)
    ensures Queued(tasks + [t], c) == Queued(tasks, c) + if t.Send? && t.aim == c then [t.data] else []
    decreases |tasks|
  {
    if tasks == [] {
      assert (tasks + [t])[1..] == [];
    } else {
      QueuedAppend(tasks[1..], t, c);
      assert (tasks + [t])[1..] == tasks[1..] + [t];
    }
  }

  lemma {:induction false} NoneQueued(tasks: seq<Task>, c: nat)
    requires forall i :: 0 <= i < |tasks| && tasks[i].Send? ==> tasks[i].aim != c
    ensures Queued(tasks, c) == []
    decreases |tasks|
  {
    if tasks != [] {
      NoneQueued(tasks[1..], c);
    }
  }

  lemma FlattenMore(queue: seq<seq<Byte>>, data: seq<Byte>)
    ensures Flatten(queue + [data]) == Flatten(queue) + data
  {
    FlattenAppend(queue, [data]);
    assert Flatten([data]) == data + Flatten([]);
  }

  // ---------------------------------------------------------------- the invariant

  /** For every connection, open or closed: handled payloads are the first of those sent,
      and the wire carries a prefix of those that were kept. */
  ghost predicate ConnOk(s: Loop, c: nat)
    requires c < |s.hist|
  {
    Datas(s.hist[c].handled) <= s.hist[c].sent && s.hist[c].wire <= Flatten(Kept(s.hist[c].handled))
  }

  /** For an open connection nothing is missing: what is not handled is queued, and what is
      kept but not written is in the ring. */
  ghost predicate LiveOk(s: Loop, fd: Fd)
    requires fd in s.cells
  {
    var cell := s.cells[fd];
    var past := PastOf(s.hist, cell.conn);
    && past.sent == Datas(past.handled) + Queued(s.tasks, cell.conn)
    && Flatten(Kept(past.handled)) == past.wire + Flatten(cell.ring)
  }

  /** A queued payload names a descriptor that still belongs to the connection it was meant
      for, or that connection is closed. */
  ghost predicate AimOk(s: Loop, i: nat)
    requires i < |s.tasks|
  {
    var t := s.tasks[i];
    t.Send? ==>
      && t.aim < |s.hist|
      && (t.fd in s.cells ==> s.cells[t.fd].conn == t.aim)
      && (t.fd !in s.cells ==> forall f :: f in s.cells ==> s.cells[f].conn != t.aim)
  }

  ghost predicate Inv(s: Loop) {
    && Numbered(s)
    && (forall c :: 0 <= c < |s.hist| ==> ConnOk(s, c))
    && (forall fd :: fd in s.cells ==> LiveOk(s, fd))
    && (forall i :: 0 <= i < |s.tasks| ==> AimOk(s, i))
  }

  // ---------------------------------------------------------------- steps

  lemma PushOther(s: Loop, t: Task)
    requires Inv(s) && !t.Send?
    ensures Inv(Push(s, t))
  {
    hide Datas, Kept, Flatten;
    var s' := Push(s, t);
    forall c | 0 <= c < |s'.hist| ensures ConnOk(s', c) { assert ConnOk(s, c); }
    forall f | f in s'.cells ensures LiveOk(s', f) {
      assert LiveOk(s, f);
      QueuedAppend(s.tasks, t, s.cells[f].conn);
    }
    forall i | 0 <= i < |s'.tasks| ensures AimOk(s', i) { if i < |s.tasks| { assert AimOk(s, i); } }
  }

  lemma NewClientInv(s: Loop, fd: Fd, junk: bool)
    requires Inv(s) && fd !in s.cells && forall t :: t in s.tasks && t.Send? ==> t.fd != fd
    ensures Inv(NewClient(s, fd, junk))
  {
    var n, s' := |s.hist|, NewClient(s, fd, junk);
    forall i | 0 <= i < |s'.tasks| ensures AimOk(s', i) && (s.tasks[i].Send? ==> s.tasks[i].aim != n) {
      assert AimOk(s, i) && s.tasks[i] in s.tasks;
    }
    NoneQueued(s.tasks, n);
    forall c | 0 <= c < |s'.hist| ensures ConnOk(s', c) { if c < n { assert ConnOk(s, c); } }
    forall f | f in s'.cells ensures LiveOk(s', f) { if f != fd { assert LiveOk(s, f); } }
  }

  lemma SendTaskInv(s: Loop, fd: Fd, data: seq<Byte>)
    requires Inv(s)
    ensures Inv(SendTask(s, fd, data).0)
  {
    hide Datas, Kept, Flatten;
    var s' := SendTask(s, fd, data).0;
    if SendTask(s, fd, data).1 {
      var c := s.cells[fd].conn;
      forall d | 0 <= d < |s'.hist| ensures ConnOk(s', d) { assert ConnOk(s, d); }
      forall f | f in s'.cells ensures LiveOk(s', f) {
        assert LiveOk(s, f);
        QueuedAppend(s.tasks, Send(fd, data, c), s.cells[f].conn);
      }
      forall i | 0 <= i < |s'.tasks| ensures AimOk(s', i) {
        if i < |s.tasks| { assert AimOk(s, i); } else { assert LiveOk(s, fd); }
      }
    }
  }

  /** Taking a task that is not a payload, or whose connection is closed, off the queue. */
  lemma DropTask(s: Loop)
    requires Inv(s) && s.tasks != [] && (s.tasks[0].Send? ==> s.tasks[0].fd !in s.cells)
    ensures Inv(s.(tasks := s.tasks[1..]))
  {
    hide Datas, Kept, Flatten;
    var s' := s.(tasks := s.tasks[1..]);
    assert AimOk(s, 0);
    forall c | 0 <= c < |s'.hist| ensures ConnOk(s', c) { assert ConnOk(s, c); }
    forall f | f in s'.cells ensures LiveOk(s', f) { assert LiveOk(s, f); }
    forall i | 0 <= i < |s'.tasks| ensures AimOk(s', i) { assert AimOk(s, i + 1); }
  }

  lemma HandleSendInv(s: Loop)
    requires Inv(s) && s.tasks != [] && s.tasks[0].Send? && s.tasks[0].fd in s.cells
    ensures Inv(PopTask(s))
  {
    hide Datas, Kept, Flatten;
    var Send(fd, data, aim) := s.tasks[0];
    var s' := PopTask(s);
    assert AimOk(s, 0);
    HandledStreams(s);
    forall c | 0 <= c < |s'.hist| ensures ConnOk(s', c) { assert ConnOk(s, c); }
    forall f | f in s'.cells ensures LiveOk(s', f) { assert LiveOk(s, f); }
    forall i | 0 <= i < |s'.tasks| ensures AimOk(s', i) { assert AimOk(s, i + 1); }
  }

  /** The client's own streams after its payload was handled. */
  lemma HandledStreams(s: Loop)
    requires Inv(s) && s.tasks != [] && s.tasks[0].Send? && s.tasks[0].fd in s.cells
    ensures var fd, s' := s.tasks[0].fd, PopTask(s);
      fd in s'.cells && LiveOk(s', fd) && ConnOk(s', s'.cells[fd].conn)
  {
    hide Datas, Kept, Flatten;
    var Send(fd, data, aim) := s.tasks[0];
    assert AimOk(s, 0) && LiveOk(s, fd) && ConnOk(s, aim);
    var cell, h, tail := s.cells[fd], s.hist[aim].handled, Queued(s.tasks[1..], aim);
    assert Kept(h) + [] == Kept(h);
    HandledAppend(h, Handled(data, |cell.ring| + 1 < s.slots));
    FlattenMore(Kept(h), data);
    FlattenMore(cell.ring, data);
    assert Queued(s.tasks, aim) == [data] + tail;
    assert Datas(h) + ([data] + tail) == Datas(h) + [data] + tail;
    var wire, ring := s.hist[aim].wire, Flatten(cell.ring);
    assert wire + (ring + data) == wire + ring + data;
  }

  lemma HandleDelInv(s: Loop, fd: Fd)
    requires Inv(s)
    ensures Inv(HandleDel(s, fd))
  {
    hide Datas, Kept, Flatten;
    var s' := HandleDel(s, fd);
    forall c | 0 <= c < |s'.hist| ensures ConnOk(s', c) { assert ConnOk(s, c); }
    forall f | f in s'.cells ensures LiveOk(s', f) { assert LiveOk(s, f); }
    forall i | 0 <= i < |s'.tasks| ensures AimOk(s', i) { assert AimOk(s, i); }
  }

  /** Steps that leave tasks, rings and what was sent alone. */
  lemma SameStreams(s: Loop, s': Loop)
    requires Inv(s)
    requires s'.tasks == s.tasks && |s'.hist| == |s.hist| && s'.cells.Keys == s.cells.Keys
    requires forall c :: 0 <= c < |s.hist| ==>
      s'.hist[c].sent == s.hist[c].sent && s'.hist[c].handled == s.hist[c].handled && s'.hist[c].wire == s.hist[c].wire
    requires forall f :: f in s.cells ==> s'.cells[f].conn == s.cells[f].conn && s'.cells[f].ring == s.cells[f].ring
    ensures Inv(s')
  {
    hide Datas, Kept, Flatten;
    forall c | 0 <= c < |s'.hist| ensures ConnOk(s', c) { assert ConnOk(s, c); }
    forall f | f in s'.cells ensures LiveOk(s', f) { assert f in s.cells && LiveOk(s, f); }
    forall i | 0 <= i < |s'.tasks| ensures AimOk(s', i) { assert AimOk(s, i); }
  }

  lemma PopTaskInv(s: Loop)
    requires Inv(s) && s.tasks != []
    ensures Inv(PopTask(s))
  {
    hide Datas, Kept, Flatten;
    var t, s1 := s.tasks[0], s.(tasks := s.tasks[1..]);
    if t.Send? && t.fd in s.cells {
      HandleSendInv(s);
    } else {
      DropTask(s);
      match t
      case Add(fd) => if fd in s1.cells { SameStreams(s1, HandleAdd(s1, fd)); } else { PushOther(s1, Del(fd)); }
      case Del(fd) => HandleDelInv(s1, fd);
      case Send(_, _, _) =>
    }
  }

  lemma DoSendInv(s: Loop, fd: Fd, results: Results)
    requires Inv(s)
    ensures Inv(DoSend(s, fd, results))
  {
    hide Datas, Kept, Flatten, SendModel.Send;
    if fd in s.cells {
      var s' := DoSend(s, fd, results);
      SentStreams(s, fd, results);
      forall c | 0 <= c < |s'.hist| ensures ConnOk(s', c) { assert ConnOk(s, c); }
      forall f | f in s'.cells ensures LiveOk(s', f) { assert LiveOk(s, f); }
      forall i | 0 <= i < |s'.tasks| ensures AimOk(s', i) { assert AimOk(s, i); }
    }
  }

  lemma SentStreams(s: Loop, fd: Fd, results: Results)
    requires Inv(s) && fd in s.cells
    ensures var s' := DoSend(s, fd, results); LiveOk(s', fd) && ConnOk(s', s'.cells[fd].conn)
  {
    hide Datas, Kept, Flatten, SendModel.Send;
    var cell := s.cells[fd];
    var wire, before := s.hist[cell.conn].wire, Progress(cell.ring, [], 0);
    var p := SendModel.Send(before, results, MAX_SEND_TIMES);
    assert LiveOk(s, fd) && ConnOk(s, cell.conn);
    SendConserves(before, results, MAX_SEND_TIMES);
    assert [] + Flatten(cell.ring) == Flatten(cell.ring);
    assert wire + (p.wire + Flatten(p.queue)) == wire + p.wire + Flatten(p.queue);
  }

  lemma DoRecvInv(s: Loop, fd: Fd, script: seq<ReadResult>, answers: Answers)
    requires Inv(s)
    ensures Inv(DoRecv(s, fd, script, answers))
  {
    hide Datas, Kept, Flatten, Reads;
    if fd in s.cells {
      var quiet := DoRecv(s, fd, script, answers).(tasks := s.tasks);
      SameStreams(s, quiet);
      PushOther(quiet, Del(fd));
    }
  }

  lemma DoEventInv(s: Loop, e: Ready, w: World)
    requires Inv(s)
    ensures Inv(DoEvent(s, e, w))
  {
    hide Inv, DoRecv, DoSend;
    if e.hup {
      PushOther(s, Del(e.fd));
    } else {
      DoRecvInv(s, e.fd, w.script, w.answers);
      DoSendInv(s, e.fd, w.results);
      DoSendInv(DoRecv(s, e.fd, w.script, w.answers), e.fd, w.results);
    }
  }

  lemma StepInv(s: Loop, a: Step)
    requires Inv(s) && Can(s, a) && Careful(s, a)
    ensures Inv(Do(s, a))
  {
    hide Datas, Kept, Flatten, PopTask, DoEvent, EventLoop.SendTask, NewClient;
    match a
    case Accepted(fd, junk) =>
      NewClientInv(s, fd, junk);
      PushOther(NewClient(s, fd, junk), Add(fd));
    case SentBy(fd, data) => SendTaskInv(s, fd, data);
    case Pop => PopTaskInv(s);
    case Serve(w) =>
      DoEventInv(s, s.phase.batch[0], w);
      SameStreams(DoEvent(s, s.phase.batch[0], w), Do(s, a));
    case _ => SameStreams(s, Do(s, a));
  }

  const CAREFUL := Rules(true, false)

  /** The invariant holds along every careful path that starts in it. */
  lemma {:induction false} PathInv(path: seq<Loop>, i: nat)
    requires IsPath(path, CAREFUL) && i < |path| && Inv(path[0])
    ensures Inv(path[i])
  {
    hide Inv, Do;
    if i > 0 {
      PathInv(path, i - 1);
      assert StepAt(path, i - 1, CAREFUL);
      var a :| Allowed(path[i - 1], a, CAREFUL) && path[i] == Do(path[i - 1], a);
      StepInv(path[i - 1], a);
    }
  }

  // ---------------------------------------------------------------- main theorem

  /** In every state of every careful run, for every connection ever accepted: the bytes
      written to its socket are a prefix of the concatenated payloads of its successful
      `sendTask` calls, in queue order, minus those dropped on a full ring; for an open
      connection the rest is still in the ring or the queue. */
  lemma StreamsArrive(run: seq<Loop>, i: nat, c: nat)
    requires IsRun(run, CAREFUL) && i < |run| && c < |run[i].hist|
    ensures var s, past := run[i], run[i].hist[c];
      && Datas(past.handled) <= past.sent && past.wire <= Flatten(Kept(past.handled))
      && forall fd :: fd in s.cells && s.cells[fd].conn == c ==>
           && past.sent == Datas(past.handled) + Queued(s.tasks, c)
           && Flatten(Kept(past.handled)) == past.wire + Flatten(s.cells[fd].ring)
  {
    PathInv(run, i);
    assert ConnOk(run[i], c);
    forall fd | fd in run[i].cells && run[i].cells[fd].conn == c ensures LiveOk(run[i], fd) {
    }
  }
}
