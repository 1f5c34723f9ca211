/** One turn of `cellManager::run` as a function of the state, of what other threads do before
    it, and of how sockets and callback behave (base/src/tcp_server/cell_manager.cpp:280-315). */
module EventTurns {
  import opened Framing
  import opened SendModel
  import opened EventLoop
  import EventOrder

  /** How many turns `handleTask` can still need: an 'A' whose client is gone queues a 'D'. */
  function Work(tasks: seq<Task>): nat {
    if tasks == [] then 0 else (if tasks[0].Add? then 2 else 1) + Work(tasks[1..])
  }

  lemma {:induction false} WorkAppend(tasks: seq<Task>, t: Task)
    ensures Work(tasks + [t]) == Work(tasks) + if t.Add? then 2 else 1
    decreases |tasks|
  {
    if tasks == [] {
      assert (tasks + [t])[1..] == [];
    } else {
      WorkAppend(tasks[1..], t);
      assert (tasks + [t])[1..] == tasks[1..] + [t];
    }
  }

  lemma PopShrinksWork(s: Loop)
    requires s.tasks != []
    ensures Work(PopTask(s).tasks) < Work(s.tasks) && PopTask(s).phase == s.phase
  {
    if s.tasks[0].Add? {
      WorkAppend(s.tasks[1..], Del(s.tasks[0].fd));
    }
  }

  /** The whole of `handleTask`, when no other thread pushes meanwhile. */
  function DrainAll(s: Loop): Loop
    decreases Work(s.tasks)
  {
    if s.tasks == [] then s
    else
      PopShrinksWork(s);
      DrainAll(PopTask(s))
  }

  /** Draining ends with an empty queue and keeps what every run of the loop keeps. */
  lemma {:induction false} DrainAllInv(s: Loop)
    requires EventOrder.Inv(s) && s.phase == Draining
    ensures EventOrder.Inv(DrainAll(s)) && DrainAll(s).phase == Draining && DrainAll(s).tasks == []
    decreases Work(s.tasks)
  {
    if s.tasks != [] {
      PopShrinksWork(s);
      EventOrder.PopTaskInv(s);
      DrainAllInv(PopTask(s));
    }
  }

  /** Up to the `epoll_wait`. */
  function Prepared(s: Loop): Loop {
    CheckWrite(DrainAll(s)).(phase := Waiting)
  }

  /** Write interest at an `epoll_wait`. */
  ghost predicate Watches(s: Loop) {
    && s.phase == Waiting
    && forall fd :: fd in s.kernel ==> fd in s.cells && (s.kernel[fd] <==> s.cells[fd].ring != [])
  }

  /** One turn of `run` up to `epoll_wait`: afterwards epoll watches each registered client
      for writing exactly when it has bytes pending, whatever tasks were queued before. */
  lemma TurnSetsInterest(s: Loop)
    requires EventOrder.Inv(s) && s.phase == Draining
    ensures EventOrder.Inv(Prepared(s)) && Prepared(s).tasks == [] && Watches(Prepared(s))
  {
    DrainAllInv(s);
    var d := DrainAll(s);
    EventOrder.PhaseInv(d, Checking);
    EventOrder.CheckWriteInv(d.(phase := Checking));
    var w := Prepared(s);
    assert CheckWrite(d.(phase := Checking)).(phase := Waiting) == w;
    forall fd | fd in w.kernel ensures fd in w.cells { assert EventOrder.MaskOk(w, fd); }
  }

  // ---------------------------------------------------------------- other threads, epoll_wait

  datatype Arrival = Accepting(fd: Fd, junk: bool) | Sending(fd: Fd, data: seq<Byte>)

  /** `accept` returns no descriptor that is open. */
  function Arrived(s: Loop, a: Arrival): Loop {
    match a
    case Accepting(fd, junk) => if fd in s.cells then s else Accept(s, fd, junk)
    case Sending(fd, data) => SendTask(s, fd, data).0
  }

  function AllArrived(s: Loop, arrivals: seq<Arrival>): Loop
    decreases |arrivals|
  {
    if arrivals == [] then s else AllArrived(Arrived(s, arrivals[0]), arrivals[1..])
  }

  /** Of the events offered, those of registered descriptors, each descriptor once. */
  function Reported(kernel: map<Fd, bool>, ready: seq<Ready>, seen: set<Fd>): seq<Ready>
    decreases |ready|
  {
    if ready == [] then []
    else if ready[0].fd in kernel && ready[0].fd !in seen then
      [ready[0]] + Reported(kernel, ready[1..], seen + {ready[0].fd})
    else Reported(kernel, ready[1..], seen)
  }

  lemma {:induction false} ReportedOnce(kernel: map<Fd, bool>, ready: seq<Ready>, seen: set<Fd>)
    ensures var batch := Reported(kernel, ready, seen);
      OncePerClient(batch) && forall e :: e in batch ==> e.fd in kernel && e.fd !in seen && e in ready
    decreases |ready|
  {
    if ready != [] {
      var head, tail := ready[0], ready[1..];
      assert ready == [head] + tail;
      if head.fd in kernel && head.fd !in seen {
        ReportedOnce(kernel, tail, seen + {head.fd});
        var rest := Reported(kernel, tail, seen + {head.fd});
        var batch := [head] + rest;
        forall i, j | 0 <= i < j < |batch| ensures batch[i].fd != batch[j].fd {
          assert batch[j] == rest[j - 1] && rest[j - 1] in rest;
        }
      } else {
        ReportedOnce(kernel, tail, seen);
      }
    }
  }

  ghost predicate Mentions(batch: seq<Ready>, fd: Fd) {
    exists i :: 0 <= i < |batch| && batch[i].fd == fd
  }

  /** No registered descriptor is left out. */
  lemma {:induction false} ReportedAll(kernel: map<Fd, bool>, ready: seq<Ready>, seen: set<Fd>, fd: Fd)
    requires fd in kernel && fd !in seen && Mentions(ready, fd)
    ensures Mentions(Reported(kernel, ready, seen), fd)
    decreases |ready|
  {
    var head, tail := ready[0], ready[1..];
    var batch := Reported(kernel, ready, seen);
    if head.fd == fd {
      assert batch[0] == head;
    } else {
      var i :| 0 <= i < |ready| && ready[i].fd == fd;
      assert tail[i - 1] == ready[i];
      if head.fd in kernel && head.fd !in seen {
        ReportedAll(kernel, tail, seen + {head.fd}, fd);
        var rest := Reported(kernel, tail, seen + {head.fd});
        var j :| 0 <= j < |rest| && rest[j].fd == fd;
        assert batch[j + 1] == rest[j];
      } else {
        ReportedAll(kernel, tail, seen, fd);
      }
    }
  }

  const QUIET := World([], i => true, i => Again)

  function WorldAt(worlds: seq<World>, i: nat): World {
    if i < |worlds| then worlds[i] else QUIET
  }

  /** The events of one batch, served in order. */
  function AllServed(s: Loop, worlds: seq<World>, i: nat): Loop
    requires s.phase.Serving?
    decreases |s.phase.batch|
  {
    if s.phase.batch == [] then s else AllServed(Do(s, Serve(WorldAt(worlds, i))), worlds, i + 1)
  }

  // ---------------------------------------------------------------- turns

  datatype Turn = Turn(arrivals: seq<Arrival>, ready: seq<Ready>, worlds: seq<World>)

  function AfterTurn(s: Loop, turn: Turn): Loop {
    var w := Prepared(AllArrived(s, turn.arrivals));
    AllServed(w.(phase := Serving(Reported(w.kernel, turn.ready, {}))), turn.worlds, 0).(phase := Draining)
  }

  function AfterTurns(s: Loop, turns: seq<Turn>): Loop
    decreases |turns|
  {
    if turns == [] then s else AfterTurns(AfterTurn(s, turns[0]), turns[1..])
  }
}
