/** `cellManager` as a class: a table of client objects, the epoll registrations and the task
    queue. Each handler is proved against the step of `EventLoop` it stands for, and `Run`
    shows that whatever the loop does is a run of that state machine
    (base/src/tcp_server/cell_manager.cpp). */
module CellManagers {
  import opened Framing
  import opened SendModel
  import opened ServerReads
  import opened EventLoop
  import EventOrder
  import opened EventTurns
  import opened SendRings
  import opened ServerCells
  import opened ClientCells

  lemma SameMap<K, V>(m: map<K, V>, n: map<K, V>)
    requires m.Keys == n.Keys && forall k :: k in m ==> m[k] == n[k]
    ensures m == n
  {
  }

  lemma SameKeys<K>(S: set<K>, T: set<K>)
    requires forall k :: k in S <==> k in T
    ensures S == T
  {
  }

  lemma SameUpdate<K, V>(m: map<K, V>, k: K, v: V)
    requires k in m && m[k] == v
    ensures m[k := v] == m
  {
  }

  method Pick<T(==)>(S: set<T>) returns (x: T)
    requires S != {}
    ensures x in S
  {
    x :| x in S;
  }

  /** `checkWrite` has dealt with every client that is not in todo. */
  ghost predicate Visited(s: Loop, cells: map<Fd, Cell>, kernel: map<Fd, bool>, todo: set<Fd>) {
    && cells.Keys == s.cells.Keys && kernel.Keys == s.kernel.Keys
    && (forall fd :: fd in s.cells ==> cells[fd] == if fd in todo then s.cells[fd] else CheckedCell(s.cells[fd]))
    && (forall fd :: fd in s.kernel ==>
          kernel[fd] == if fd in s.cells && fd !in todo then CheckedMask(s.kernel[fd], s.cells[fd]) else s.kernel[fd])
  }

  lemma NoneVisited(s: Loop)
    ensures Visited(s, s.cells, s.kernel, s.cells.Keys)
  {
  }

  lemma VisitOne(s: Loop, cells: map<Fd, Cell>, kernel: map<Fd, bool>, todo: set<Fd>, fd: Fd)
    requires Visited(s, cells, kernel, todo) && fd in todo && todo <= s.cells.Keys
    ensures fd in cells
    ensures Visited(s, cells[fd := CheckedCell(cells[fd])],
                    if fd in kernel then kernel[fd := CheckedMask(kernel[fd], cells[fd])] else kernel, todo - {fd})
  {
    hide CheckedCell, CheckedMask;
  }

  lemma AllVisited(s: Loop, cells: map<Fd, Cell>, kernel: map<Fd, bool>)
    requires Visited(s, cells, kernel, {})
    ensures s.(cells := cells, kernel := kernel) == CheckWrite(s)
  {
    hide CheckedCell, CheckedMask;
    var w := CheckWrite(s);
    forall fd | fd in cells ensures cells[fd] == w.cells[fd] {
      assert w.cells[fd] == CheckedCell(s.cells[fd]);
    }
    SameMap(cells, w.cells);
    forall fd | fd in kernel ensures kernel[fd] == w.kernel[fd] {
      assert w.kernel[fd] == if fd in s.cells then CheckedMask(s.kernel[fd], s.cells[fd]) else s.kernel[fd];
    }
    SameMap(kernel, w.kernel);
  }

  lemma ArrivalKeepsPhase(s: Loop, a: Arrival)
    ensures Arrived(s, a).phase == s.phase
  {
  }

  lemma CheckIgnoresPhase(s: Loop)
    ensures CheckWrite(s.(phase := Checking)).(phase := Waiting) == CheckWrite(s).(phase := Waiting)
  {
  }

  lemma Watching(run: seq<Loop>)
    requires IsRun(run, FREE) && Last(run).phase == Waiting
    ensures Watches(Last(run))
  {
    forall fd | fd in Last(run).kernel ensures fd in Last(run).cells && (Last(run).kernel[fd] <==> Last(run).cells[fd].ring != []) {
      EventOrder.WriteInterest(run, |run| - 1, fd);
    }
  }

  class CellManager {
    const cap: nat
    var cells: map<Fd, ClientCell>
    var kernel: map<Fd, bool>
    var tasks: seq<Task>
    /** How many connections there have been. */
    var connections: nat
    ghost var phase: Phase
    ghost var trace: seq<Callback>
    ghost var hist: seq<Past>
    /** The objects of all clients. */
    ghost var Repr: set<object>
    /** Every state so far. */
    ghost var Log: seq<Loop>

    ghost predicate ClientOk(fd: Fd)
      reads `cells, `Repr, Repr
      requires fd in cells
    {
      cells[fd] in Repr && cells[fd].Repr <= Repr && cells[fd].Valid()
    }

    /** Clients are valid and share no memory. */
    ghost predicate Clients()
      reads `cells, `Repr, Repr
    {
      && this !in Repr
      && (forall fd :: fd in cells ==> ClientOk(fd))
      && (forall f, g :: f in cells && g in cells && f != g ==> cells[f].Repr !! cells[g].Repr)
    }

    ghost predicate Valid()
      reads this, Repr
    {
      Clients() && connections == |hist| && forall fd :: fd in cells ==> cells[fd].conn < connections
    }

    ghost function Table(): map<Fd, Cell>
      reads `cells, `Repr, Repr
      requires Clients()
    {
      map fd | fd in cells :: (assert ClientOk(fd); cells[fd].State())
    }

    lemma TableIs(m: map<Fd, Cell>)
      requires Clients() && m.Keys == cells.Keys
      requires forall f :: f in cells ==> ClientOk(f) && cells[f].State() == m[f]
      ensures Table() == m
    {
      var now := Table();
      forall f | f in now ensures now[f] == m[f] {
        assert f in cells && ClientOk(f);
      }
      SameMap(now, m);
    }

    lemma TableKeys()
      requires Clients()
      ensures Table().Keys == cells.Keys
    {
      SameKeys(Table().Keys, cells.Keys);
    }

    lemma TableAt(fd: Fd)
      requires Clients() && fd in cells
      ensures ClientOk(fd) && Table().Keys == cells.Keys && Table()[fd] == cells[fd].State()
    {
      assert ClientOk(fd);
    }

    ghost function State(): Loop
      reads this, Repr
      requires Valid()
    {
      Loop(cap, SYSSENDBUF, SYSRECVBUF, Table(), kernel, tasks, phase, trace, hist)
    }

    /** The states so far are a run of the state machine that has led here. */
    ghost predicate Logged()
      reads this, Repr
    {
      Valid() && IsRun(Log, FREE) && Last(Log) == State()
    }

    constructor (cap: nat)
      ensures Valid() && State() == Boot(cap, SYSSENDBUF, SYSRECVBUF) && Logged() && Log == [State()] && Repr == {}
    {
      this.cap := cap;
      cells, kernel, tasks, connections := map[], map[], [], 0;
      phase, trace, hist, Repr := Draining, [], [], {};
      Log := [Boot(cap, SYSSENDBUF, SYSRECVBUF)];
      new;
      SameMap(Table(), map[]);
    }

    method PushTask(t: Task) returns (ok: bool)
      requires Valid()
      modifies this`tasks
      ensures Valid() && State() == Push(old(State()), t) && (ok <==> |old(tasks)| < cap)
    {
      ok := |tasks| < cap;
      if ok {
        tasks := tasks + [t];
      }
    }

    /** A new client in the table. */
    method Insert(fd: Fd, junk: bool)
      requires Clients() && fd !in cells
      modifies `cells, `Repr
      ensures Clients() && fresh(Repr - old(Repr)) && Repr >= old(Repr)
      ensures Table() == old(Table())[fd := NewCell(connections, junk)]
      ensures cells.Keys == old(cells).Keys + {fd} && cells[fd].conn == connections
      ensures forall f :: f in old(cells) ==> cells[f] == old(cells)[f]
    {
      ghost var before := Table();
      forall f | f in cells ensures ClientOk(f) && before[f] == cells[f].State() { TableAt(f); }
      var cell := new ClientCell(connections, junk);
      cells := cells[fd := cell];
      Repr := Repr + cell.Repr;
      hide Table;
      forall f | f in cells ensures ClientOk(f) && cells[f].State() == if f == fd then NewCell(connections, junk) else before[f] {
      }
      Apart(old(cells), fd, cell);
      TableIs(before[fd := NewCell(connections, junk)]);
    }

    lemma Apart(others: map<Fd, ClientCell>, fd: Fd, cell: ClientCell)
      requires cells == others[fd := cell]
      requires forall f :: f in others && f != fd ==> others[f].Repr !! cell.Repr
      requires forall f, g :: f in others && g in others && f != g ==> others[f].Repr !! others[g].Repr
      ensures forall f, g :: f in cells && g in cells && f != g ==> cells[f].Repr !! cells[g].Repr
    {
    }

    method Register(fd: Fd, junk: bool)
      requires Valid() && fd !in cells
      modifies `cells, `Repr, `connections, `hist
      ensures Valid() && fresh(Repr - old(Repr)) && Repr >= old(Repr)
      ensures State() == NewClient(old(State()), fd, junk)
    {
      hide NewCell, ClientOk;
      Insert(fd, junk);
      connections := connections + 1;
      hist := hist + [NOTHING];
    }

    method AddTask(fd: Fd, junk: bool)
      requires Valid() && fd !in cells
      modifies this
      ensures Valid() && fresh(Repr - old(Repr)) && Repr >= old(Repr)
      ensures State() == Accept(old(State()), fd, junk) && Log == old(Log)
    {
      hide NewClient, ClientOk;
      Register(fd, junk);
      var _ := PushTask(Add(fd));
    }

    method DelTask(fd: Fd)
      requires Valid()
      modifies this`tasks
      ensures Valid() && State() == Push(old(State()), Del(fd))
    {
      var _ := PushTask(Del(fd));
    }

    /** Returns whether the payload was queued. */
    method SendTask(fd: Fd, data: seq<Byte>) returns (ok: bool)
      requires Valid()
      modifies this`tasks, this`hist
      ensures Valid() && (State(), ok) == EventLoop.SendTask(old(State()), fd, data)
      ensures ok <==> fd in old(cells) && |old(tasks)| < cap
      ensures !ok ==> State() == old(State())
    {
      if fd !in cells {
        return false;
      }
      assert ClientOk(fd);
      var c := cells[fd].conn;
      ok := PushTask(Send(fd, data, c));
      if ok {
        hist := Record(hist, c, PastOf(hist, c).(sent := PastOf(hist, c).sent + [data]));
      }
    }

    // -------------------------------------------------------------- one client at a time

    /** When only one client's objects have changed, only its entry has. */
    twostate lemma OneChanged(fd: Fd)
      requires old(Clients()) && cells == old(cells) && fd in cells && cells[fd].Valid()
      requires Repr == old(Repr) + cells[fd].Repr && fresh(cells[fd].Repr - old(cells[fd].Repr)) && this !in cells[fd].Repr
      requires forall o :: o in old(Repr) && o !in old(cells[fd].Repr) ==> unchanged(o)
      ensures Clients() && Table() == old(Table())[fd := cells[fd].State()]
    {
      ghost var before := old(Table());
      forall f | f in cells
        ensures ClientOk(f) && cells[f].State() == (if f == fd then cells[fd].State() else before[f])
        ensures f != fd ==> cells[f].Repr == old(cells[f].Repr) && cells[f].Repr <= old(Repr)
      {
        assert old(ClientOk(f)) && old(ClientOk(fd));
      }
      TableIs(before[fd := cells[fd].State()]);
    }

    method EnqueueAt(fd: Fd, data: seq<Byte>) returns (kept: bool)
      requires Clients() && fd in cells
      modifies `Repr, Repr
      ensures Clients() && fresh(Repr - old(Repr)) && Repr >= old(Repr)
      ensures var cell := old(Table())[fd];
        && (kept <==> |cell.ring| + 1 < SYSSENDBUF)
        && Table() == if kept then old(Table())[fd := cell.(ring := cell.ring + [data])] else old(Table())
    {
      assert ClientOk(fd);
      ghost var cell := cells[fd].State();
      kept := cells[fd].Enqueue(data);
      Repr := Repr + cells[fd].Repr;
      OneChanged(fd);
      if !kept {
        assert cell.ring + [] == cell.ring;
        SameMap(Table(), old(Table()));
      }
    }

    method SendAt(fd: Fd, results: Results) returns (wire: seq<Byte>)
      requires Clients() && fd in cells
      modifies Repr
      ensures Clients()
      ensures var cell := old(Table())[fd];
        var p := SendModel.Send(Progress(cell.ring, [], 0), results, MAX_SEND_TIMES);
        wire == p.wire && Table() == old(Table())[fd := cell.(ring := p.queue)]
    {
      hide SendModel.Send;
      assert ClientOk(fd);
      wire := cells[fd].DoSend(results);
      OneChanged(fd);
    }

    method ReceiveAt(fd: Fd, script: seq<ReadResult>, answers: Answers)
      returns (callbacks: nat, full: bool, fatal: bool, ghost r: Received)
      requires Clients() && fd in cells
      modifies Repr
      ensures Clients()
      ensures r == Reads(SYSRECVBUF, old(Table())[fd].rx, script, answers)
      ensures callbacks == r.callbacks && full == r.full && fatal == r.fatal
      ensures Table() == old(Table())[fd := old(Table())[fd].(rx := r.session)]
    {
      hide Reads;
      assert ClientOk(fd);
      callbacks, full, fatal, r := cells[fd].DoRecv(script, answers);
      OneChanged(fd);
    }

    method SetOutAt(fd: Fd, wanted: bool)
      requires Clients() && fd in cells
      modifies Repr
      ensures Clients() && Table() == old(Table())[fd := old(Table())[fd].(out := wanted)]
    {
      assert ClientOk(fd);
      cells[fd].SetOut(wanted);
      OneChanged(fd);
    }

    /** `delClientCell`: the cell is destroyed and leaves the table. */
    method Remove(fd: Fd)
      requires Clients() && fd in cells
      modifies `cells, Repr
      ensures Clients() && Table() == old(Table()) - {fd} && cells == old(cells) - {fd}
    {
      assert ClientOk(fd);
      ghost var before := Table();
      forall f | f in cells ensures ClientOk(f) && before[f] == cells[f].State() { TableAt(f); }
      cells[fd].Destroy();
      cells := cells - {fd};
      hide Table;
      forall f | f in cells ensures ClientOk(f) && cells[f].State() == (before - {fd})[f] {
        assert old(ClientOk(f)) && f != fd;
      }
      TableIs(before - {fd});
    }

    // -------------------------------------------------------------- the loop's handlers

    method HandleAdd(fd: Fd)
      requires Valid()
      modifies this, Repr
      ensures Valid() && Repr == old(Repr) && Log == old(Log)
      ensures State() == EventLoop.HandleAdd(old(State()), fd)
    {
      hide ClientOk;
      if fd !in cells {
        DelTask(fd);
        return;
      }
      SetOutAt(fd, false);
      kernel := kernel[fd := false];
      trace := trace + [OnConnect(fd)];
    }

    method HandleDel(fd: Fd)
      requires Valid()
      modifies this, Repr
      ensures Valid() && Repr == old(Repr) && Log == old(Log)
      ensures State() == EventLoop.HandleDel(old(State()), fd)
    {
      hide ClientOk;
      if fd !in cells {
        return;
      }
      kernel := kernel - {fd};
      Remove(fd);
      trace := trace + [OnDisconnect(fd)];
    }

    method HandleSend(fd: Fd, data: seq<Byte>)
      requires Valid()
      modifies this, Repr
      ensures Valid() && fresh(Repr - old(Repr)) && Repr >= old(Repr) && Log == old(Log)
      ensures State() == EventLoop.HandleSend(old(State()), fd, data)
    {
      hide ClientOk;
      if fd !in cells {
        return;
      }
      ghost var c := cells[fd].conn;
      ConnOf(fd);
      var kept := EnqueueAt(fd, data);
      hist := Record(hist, c, PastOf(hist, c).(handled := PastOf(hist, c).handled + [Handled(data, kept)]));
    }

    lemma ConnOf(fd: Fd)
      requires Clients() && fd in cells
      ensures Table()[fd].conn == cells[fd].conn
    {
      assert ClientOk(fd);
    }

    /** The loop of `doRecv` for a known client; whether it asks for the client's deletion. */
    method Receive(fd: Fd, script: seq<ReadResult>, answers: Answers) returns (fatal: bool)
      requires Valid() && fd in cells
      modifies this, Repr
      ensures Valid() && Repr == old(Repr) && Log == old(Log)
      ensures fatal == Reads(SYSRECVBUF, old(Table())[fd].rx, script, answers).fatal
      ensures State() == EventLoop.DoRecv(old(State()), fd, script, answers).(tasks := old(tasks))
    {
      hide ClientOk, Reads;
      ghost var c := cells[fd].conn;
      ConnOf(fd);
      var callbacks, full;
      ghost var r;
      callbacks, full, fatal, r := ReceiveAt(fd, script, answers);
      trace := trace + Calls(fd, r);
      hist := Record(hist, c, PastOf(hist, c).(read := PastOf(hist, c).read + r.read, got := r.session.accepted));
    }

    method DoRecv(fd: Fd, script: seq<ReadResult>, answers: Answers)
      requires Valid()
      modifies this, Repr
      ensures Valid() && Repr == old(Repr) && Log == old(Log)
      ensures State() == EventLoop.DoRecv(old(State()), fd, script, answers)
    {
      hide ClientOk, Reads;
      if fd !in cells {
        return;
      }
      var fatal := Receive(fd, script, answers);
      if fatal {
        DelTask(fd);
      }
    }

    method DoSend(fd: Fd, results: Results)
      requires Valid()
      modifies this, Repr
      ensures Valid() && Repr == old(Repr) && Log == old(Log)
      ensures State() == EventLoop.DoSend(old(State()), fd, results)
    {
      hide ClientOk, SendModel.Send;
      if fd !in cells {
        return;
      }
      ghost var c := cells[fd].conn;
      ConnOf(fd);
      var wire := SendAt(fd, results);
      hist := Record(hist, c, PastOf(hist, c).(wire := PastOf(hist, c).wire + wire));
    }

    method DoEvent(e: Ready, w: World)
      requires Valid()
      modifies this, Repr
      ensures Valid() && Repr == old(Repr) && Log == old(Log)
      ensures State() == EventLoop.DoEvent(old(State()), e, w)
    {
      hide EventLoop.DoRecv, EventLoop.DoSend, Clients, Table;
      if e.hup {
        DelTask(e.fd);
        return;
      }
      if e.readable {
        DoRecv(e.fd, w.script, w.answers);
      }
      if e.writable {
        DoSend(e.fd, w.results);
      }
    }

    // -------------------------------------------------------------- checkWrite

    /** `epoll_ctl` with EPOLL_CTL_MOD: fails, without effect, for what is not registered. */
    method Modify(fd: Fd, wanted: bool)
      modifies `kernel
      ensures kernel == if fd in old(kernel) then old(kernel)[fd := wanted] else old(kernel)
    {
      if fd in kernel {
        kernel := kernel[fd := wanted];
      }
    }

    /** `m_Events` with or without EPOLLOUT, here and in epoll. */
    method Watch(fd: Fd, wanted: bool)
      requires Clients() && fd in cells
      modifies `kernel, Repr
      ensures Clients() && Table() == old(Table())[fd := old(Table())[fd].(out := wanted)]
      ensures kernel == if fd in old(kernel) then old(kernel)[fd := wanted] else old(kernel)
    {
      hide ClientOk;
      SetOutAt(fd, wanted);
      Modify(fd, wanted);
    }

    /** The loop body of `checkWrite` for one client. */
    method CheckClient(fd: Fd)
      requires Clients() && fd in cells
      modifies `kernel, Repr
      ensures Clients() && old(fd in Table())
      ensures Table() == old(Table())[fd := CheckedCell(old(Table())[fd])]
      ensures kernel == if fd in old(kernel) then old(kernel)[fd := CheckedMask(old(kernel)[fd], old(Table())[fd])] else old(kernel)
    {
      TableAt(fd);
      ghost var table, cell := Table(), Table()[fd];
      var pending := cells[fd].IsPending();
      var watched := cells[fd].out;
      hide ClientOk, Clients, Table;
      if pending {
        Watch(fd, true);
      } else if watched {
        Watch(fd, false);
      } else {
        SameUpdate(table, fd, CheckedCell(cell));
        if fd in kernel {
          SameUpdate(kernel, fd, CheckedMask(kernel[fd], cell));
        }
      }
    }

    /** Visits every client, in whatever order the table yields them. */
    method CheckWrite()
      requires Valid()
      modifies `kernel, Repr
      ensures Valid() && State() == EventLoop.CheckWrite(old(State()))
    {
      hide CheckedCell, CheckedMask, ClientOk, Visited, EventLoop.CheckWrite;
      ghost var before, now := State(), Table();
      TableKeys();
      var todo: set<Fd> := cells.Keys;
      NoneVisited(before);
      while todo != {}
        invariant Clients() && Table() == now && todo <= cells.Keys && Visited(before, now, kernel, todo)
        decreases |todo|
      {
        var fd := Pick(todo);
        VisitOne(before, now, kernel, todo, fd);
        CheckClient(fd);
        now := now[fd := CheckedCell(now[fd])];
        todo := todo - {fd};
      }
      AllVisited(before, now, kernel);
    }

    // -------------------------------------------------------------- the loop

    ghost method Note(a: Step)
      requires Valid() && IsRun(Log, FREE) && Allowed(Last(Log), a, FREE) && State() == Do(Last(Log), a)
      modifies `Log
      ensures Logged() && Log == old(Log) + [State()]
    {
      hide ClientOk;
      Extend(Log, a, FREE);
      Log := Log + [State()];
    }

    method HandleTask()
      requires Logged() && phase == Draining
      modifies this, Repr
      ensures Logged() && State() == DrainAll(old(State())) && phase == Draining && tasks == []
      ensures old(Log) <= Log && fresh(Repr - old(Repr))
    {
      hide ClientOk;
      while tasks != []
        invariant Logged() && phase == Draining && old(Log) <= Log && fresh(Repr - old(Repr))
        invariant DrainAll(State()) == DrainAll(old(State()))
        decreases Work(tasks)
      {
        PopShrinksWork(State());
        PopOne();
      }
    }

    method PopOne()
      requires Logged() && phase == Draining && tasks != []
      modifies this, Repr
      ensures Logged() && State() == PopTask(old(State())) && Log == old(Log) + [State()] && fresh(Repr - old(Repr))
    {
      hide ClientOk, EventLoop.HandleAdd, EventLoop.HandleDel, EventLoop.HandleSend;
      var t := tasks[0];
      tasks := tasks[1..];
      match t {
        case Send(fd, data, _) => HandleSend(fd, data);
        case Del(fd) => HandleDel(fd);
        case Add(fd) => HandleAdd(fd);
      }
      Note(Pop);
    }

    /** One step of another thread. `accept` returns no descriptor that is open. */
    method Arrive(a: Arrival)
      requires Logged()
      modifies this, Repr
      ensures Logged() && State() == Arrived(old(State()), a) && phase == old(phase)
      ensures old(Log) <= Log && fresh(Repr - old(Repr))
    {
      hide ClientOk, Accept, EventLoop.SendTask;
      TableKeys();
      ArrivalKeepsPhase(State(), a);
      match a {
        case Accepting(fd, junk) =>
          if fd !in cells {
            AddTask(fd, junk);
            Note(Accepted(fd, junk));
          }
        case Sending(fd, data) =>
          var _ := SendTask(fd, data);
          Note(SentBy(fd, data));
      }
    }

    /** What `epoll_wait` returns: registered descriptors, each once. */
    method EpollWait(ready: seq<Ready>) returns (batch: seq<Ready>)
      ensures batch == Reported(kernel, ready, {})
    {
      batch := [];
      var seen: set<Fd> := {};
      assert ready[0..] == ready;
      for i := 0 to |ready|
        invariant batch + Reported(kernel, ready[i..], seen) == Reported(kernel, ready, {})
      {
        assert ready[i..][0] == ready[i] && ready[i..][1..] == ready[i + 1..];
        if ready[i].fd in kernel && ready[i].fd !in seen {
          batch, seen := batch + [ready[i]], seen + {ready[i].fd};
        }
      }
    }

    /** The events of one `epoll_wait`, in order. */
    method ServeAll(batch: seq<Ready>, worlds: seq<World>)
      requires Logged() && phase == Serving(batch)
      modifies this, Repr
      ensures Logged() && State() == AllServed(old(State()), worlds, 0) && phase == Serving([])
      ensures old(Log) <= Log && fresh(Repr - old(Repr))
    {
      hide ClientOk, Do;
      assert batch[0..] == batch;
      for i := 0 to |batch|
        invariant Logged() && phase == Serving(batch[i..]) && old(Log) <= Log && fresh(Repr - old(Repr))
        invariant AllServed(State(), worlds, i) == AllServed(old(State()), worlds, 0)
      {
        assert batch[i..][0] == batch[i] && batch[i..][1..] == batch[i + 1..];
        ServeOne(batch[i], WorldAt(worlds, i));
      }
    }

    method ServeOne(e: Ready, w: World)
      requires Logged() && phase.Serving? && phase.batch != [] && phase.batch[0] == e
      modifies this, Repr
      ensures Logged() && State() == Do(old(State()), Serve(w)) && phase == Serving(old(phase).batch[1..])
      ensures old(Log) <= Log && fresh(Repr - old(Repr))
    {
      hide ClientOk, EventLoop.DoEvent;
      DoEvent(e, w);
      phase := Serving(old(phase).batch[1..]);
      Note(Serve(w));
    }

    /** `handleTask` and `checkWrite`, up to the `epoll_wait`. */
    method Prepare()
      requires Logged() && phase == Draining
      modifies this, Repr
      ensures Logged() && State() == Prepared(old(State())) && phase == Waiting && Watches(State())
      ensures old(Log) <= Log && fresh(Repr - old(Repr))
    {
      hide ClientOk, DrainAll, EventLoop.CheckWrite;
      HandleTask();
      CheckIgnoresPhase(State());
      TasksDone();
      CheckAll();
    }

    ghost method TasksDone()
      requires Logged() && phase == Draining && tasks == []
      modifies `phase, `Log
      ensures Logged() && State() == old(State()).(phase := Checking) && old(Log) <= Log
    {
      hide ClientOk;
      phase := Checking;
      Note(Drained);
    }

    method CheckAll()
      requires Logged() && phase == Checking
      modifies this, Repr
      ensures Logged() && State() == EventLoop.CheckWrite(old(State())).(phase := Waiting) && phase == Waiting
      ensures Watches(State()) && old(Log) <= Log && Repr == old(Repr)
    {
      hide ClientOk, EventLoop.CheckWrite;
      CheckWrite();
      phase := Waiting;
      Note(Checked);
      Watching(Log);
    }

    method ArriveAll(arrivals: seq<Arrival>)
      requires Logged() && phase == Draining
      modifies this, Repr
      ensures Logged() && State() == AllArrived(old(State()), arrivals) && phase == Draining
      ensures old(Log) <= Log && fresh(Repr - old(Repr))
    {
      hide ClientOk, Arrived;
      assert arrivals[0..] == arrivals;
      for i := 0 to |arrivals|
        invariant Logged() && phase == Draining && old(Log) <= Log && fresh(Repr - old(Repr))
        invariant AllArrived(State(), arrivals[i..]) == AllArrived(old(State()), arrivals)
      {
        assert arrivals[i..][0] == arrivals[i] && arrivals[i..][1..] == arrivals[i + 1..];
        Arrive(arrivals[i]);
      }
    }

    /** `epoll_wait` and what it reports. */
    method WaitAndServe(ready: seq<Ready>, worlds: seq<World>)
      requires Logged() && phase == Waiting
      modifies this, Repr
      ensures Logged() && phase == Draining && old(Log) <= Log && fresh(Repr - old(Repr))
      ensures State() == AllServed(old(State()).(phase := Serving(Reported(old(kernel), ready, {}))), worlds, 0).(phase := Draining)
    {
      hide ClientOk, AllServed, Reported, IsRun;
      var batch := EpollWait(ready);
      ReportedOnce(kernel, ready, {});
      Wake(batch);
      ServeAll(batch, worlds);
      EndTurn();
    }

    ghost method EndTurn()
      requires Logged() && phase == Serving([])
      modifies `phase, `Log
      ensures Logged() && State() == old(State()).(phase := Draining) && old(Log) <= Log
    {
      hide ClientOk;
      phase := Draining;
      Note(Served);
    }

    ghost method Wake(batch: seq<Ready>)
      requires Logged() && phase == Waiting && OncePerClient(batch) && forall e :: e in batch ==> e.fd in kernel
      modifies `phase, `Log
      ensures Logged() && State() == old(State()).(phase := Serving(batch)) && old(Log) <= Log
    {
      hide ClientOk;
      phase := Serving(batch);
      Note(Woken(batch));
    }

    /** One turn of `run`, after what other threads did meanwhile; its `epoll_wait`. */
    method RunOnce(turn: Turn) returns (ghost wait: Loop)
      requires Logged() && phase == Draining
      modifies this, Repr
      ensures Logged() && State() == AfterTurn(old(State()), turn) && phase == Draining
      ensures old(Log) <= Log && fresh(Repr - old(Repr)) && wait in Log && Watches(wait)
    {
      hide ClientOk, Watches, IsRun, AllServed, Prepared, AllArrived, Reported;
      ArriveAll(turn.arrivals);
      Prepare();
      wait := State();
      assert wait == Log[|Log| - 1];
      WaitAndServe(turn.ready, turn.worlds);
    }

    /** `run`, for as many turns as are given. Every state the manager goes through is one of
        a run of the state machine, so all that holds of its runs holds here; in particular
        each `epoll_wait` is entered with the right write interest, and every client's
        callbacks have come in order. */
    method Run(turns: seq<Turn>) returns (ghost waits: seq<Loop>)
      requires Logged() && phase == Draining
      modifies this, Repr
      ensures Logged() && State() == AfterTurns(old(State()), turns) && phase == Draining
      ensures old(Log) <= Log && fresh(Repr - old(Repr))
      ensures |waits| == |turns| && forall w :: w in waits ==> w in Log && Watches(w)
      ensures EventOrder.Inv(State()) && forall fd :: EventOrder.StageOf(trace, fd) != EventOrder.Wrong
    {
      hide ClientOk, Watches, AfterTurn;
      waits := [];
      assert turns[0..] == turns;
      for i := 0 to |turns|
        invariant Logged() && phase == Draining && old(Log) <= Log && fresh(Repr - old(Repr))
        invariant |waits| == i && forall w :: w in waits ==> w in Log && Watches(w)
        invariant AfterTurns(State(), turns[i..]) == AfterTurns(old(State()), turns)
      {
        assert turns[i..][0] == turns[i] && turns[i..][1..] == turns[i + 1..];
        ghost var wait := RunOnce(turns[i]);
        waits := waits + [wait];
      }
      InOrder();
    }

    lemma InOrder()
      requires Logged()
      ensures EventOrder.Inv(State()) && forall fd :: EventOrder.StageOf(trace, fd) != EventOrder.Wrong
    {
      EventOrder.RunInv(Log, |Log| - 1);
      forall fd ensures EventOrder.StageOf(trace, fd) != EventOrder.Wrong {
        EventOrder.CallbackOrder(Log, |Log| - 1, fd);
      }
    }
  }
}
