/** One `cellManager` with its task queue, client table, epoll registrations and callbacks
    (base/src/tcp_server/cell_manager.cpp) as a state machine.  The acceptor and the sending
    threads may step at any moment; the loop thread runs its phases in order. */
module EventLoop {
  import opened Framing
  import opened SendModel
  import opened ServerReceive
  import opened ServerReads

  type Fd = int

  /** `aim` is history: the connection a sender meant when it named the descriptor. */
  datatype Task = Add(fd: Fd) | Del(fd: Fd) | Send(fd: Fd, data: seq<Byte>, aim: nat)

  /** `clientCell`: its connection number (history), its send ring, whether `m_Events`
      contains EPOLLOUT, and its receive buffer. Until `handleAdd` runs, `m_Events` is
      uninitialised. */
  datatype Cell = Cell(conn: nat, ring: seq<seq<Byte>>, out: bool, rx: Session)

  function NewCell(conn: nat, junk: bool): Cell {
    Cell(conn, [], junk, FRESH)
  }

  datatype Callback = OnConnect(fd: Fd) | OnRecvData(fd: Fd) | OnDisconnect(fd: Fd) | OnError(fd: Fd)

  /** A payload taken from the queue, and whether the ring had room for it. */
  datatype Handled = Handled(data: seq<Byte>, kept: bool)

  /** What has happened to one connection: payloads whose `sendTask` returned success,
      payloads handled, bytes written to its socket, bytes read from it, frames accepted. */
  datatype Past = Past(sent: seq<seq<Byte>>, handled: seq<Handled>, wire: seq<Byte>, read: seq<Byte>, got: seq<Frame>)

  const NOTHING := Past([], [], [], [], [])

  /** What `epoll_wait` reports for one descriptor. */
  datatype Ready = Ready(fd: Fd, hup: bool, readable: bool, writable: bool)

  datatype Phase = Draining | Checking | Waiting | Serving(batch: seq<Ready>)

  /** `cap` is the task queue's capacity, `slots` the ring's length, `buf` the receive
      buffer's. `kernel` maps each registered descriptor to whether its epoll mask contains
      EPOLLOUT. `trace` and `hist`, one entry per connection ever accepted, are history. */
  datatype Loop = Loop(
    cap: nat, slots: nat, buf: nat, cells: map<Fd, Cell>, kernel: map<Fd, bool>, tasks: seq<Task>,
    phase: Phase, trace: seq<Callback>, hist: seq<Past>)

  function Boot(cap: nat, slots: nat, buf: nat): Loop {
    Loop(cap, slots, buf, map[], map[], [], Draining, [], [])
  }

  function PastOf(hist: seq<Past>, c: nat): Past {
    if c < |hist| then hist[c] else NOTHING
  }

  function Record(hist: seq<Past>, c: nat, past: Past): (r: seq<Past>)
    ensures |r| == |hist| && forall d :: 0 <= d < |hist| ==> r[d] == if d == c then past else hist[d]
  {
    if c < |hist| then hist[c := past] else hist
  }

  // ---------------------------------------------------------------- other threads

  /** The bounded queue drops what does not fit. */
  function Push(s: Loop, t: Task): Loop {
    if |s.tasks| < s.cap then s.(tasks := s.tasks + [t]) else s
  }

  function NewClient(s: Loop, fd: Fd, junk: bool): Loop {
    s.(cells := s.cells[fd := NewCell(|s.hist|, junk)], hist := s.hist + [NOTHING])
  }

  /** `addTask` for a descriptor `accept` has just returned. */
  function Accept(s: Loop, fd: Fd, junk: bool): Loop {
    Push(NewClient(s, fd, junk), Add(fd))
  }

  /** `sendTask` by any thread: refused when the client is gone or the queue is full. */
  function SendTask(s: Loop, fd: Fd, data: seq<Byte>): (Loop, bool) {
    if fd !in s.cells || |s.tasks| >= s.cap then (s, false)
    else
      var c := s.cells[fd].conn;
      var past := PastOf(s.hist, c);
      (Push(s, Send(fd, data, c)).(hist := Record(s.hist, c, past.(sent := past.sent + [data]))), true)
  }

  // ---------------------------------------------------------------- the loop thread

  function HandleAdd(s: Loop, fd: Fd): Loop {
    if fd !in s.cells then Push(s, Del(fd))
    else s.(cells := s.cells[fd := s.cells[fd].(out := false)], kernel := s.kernel[fd := false],
            trace := s.trace + [OnConnect(fd)])
  }

  function HandleDel(s: Loop, fd: Fd): Loop {
    if fd !in s.cells then s
    else s.(cells := s.cells - {fd}, kernel := s.kernel - {fd}, trace := s.trace + [OnDisconnect(fd)])
  }

  function HandleSend(s: Loop, fd: Fd, data: seq<Byte>): Loop {
    if fd !in s.cells then s
    else
      var cell := s.cells[fd];
      var past := PastOf(s.hist, cell.conn);
      var kept := |cell.ring| + 1 < s.slots;
      s.(cells := if kept then s.cells[fd := cell.(ring := cell.ring + [data])] else s.cells,
         hist := Record(s.hist, cell.conn, past.(handled := past.handled + [Handled(data, kept)])))
  }

  function HandleTask(s: Loop, t: Task): Loop {
    match t
    case Add(fd) => HandleAdd(s, fd)
    case Del(fd) => HandleDel(s, fd)
    case Send(fd, data, _) => HandleSend(s, fd, data)
  }

  function PopTask(s: Loop): Loop
    requires s.tasks != []
  {
    HandleTask(s.(tasks := s.tasks[1..]), s.tasks[0])
  }

  /** What `checkWrite` leaves in `m_Events` and in epoll for one client. `epoll_ctl` with
      EPOLL_CTL_MOD changes only what is registered, and is called unless the ring is
      empty and EPOLLOUT was not wanted anyway. */
  function CheckedCell(cell: Cell): Cell {
    cell.(out := cell.ring != [])
  }

  function CheckedMask(mask: bool, cell: Cell): bool {
    if cell.ring != [] then true else if cell.out then false else mask
  }

  function CheckWrite(s: Loop): Loop {
    s.(cells := map fd | fd in s.cells :: CheckedCell(s.cells[fd]),
       kernel := map fd | fd in s.kernel :: if fd in s.cells then CheckedMask(s.kernel[fd], s.cells[fd]) else s.kernel[fd])
  }

  /** `doRecv`: the buffer, the callbacks, and a deletion task on a fatal answer. */
  function DoRecv(s: Loop, fd: Fd, script: seq<ReadResult>, answers: Answers): Loop {
    if fd !in s.cells then s
    else
      var cell := s.cells[fd];
      var past := PastOf(s.hist, cell.conn);
      var r := Reads(s.buf, cell.rx, script, answers);
      var s1 := s.(
        cells := s.cells[fd := cell.(rx := r.session)],
        trace := s.trace + Calls(fd, r),
        hist := Record(s.hist, cell.conn, past.(read := past.read + r.read, got := r.session.accepted)));
      if r.fatal then Push(s1, Del(fd)) else s1
  }

  function Calls(fd: Fd, r: Received): seq<Callback> {
    seq(r.callbacks, i => OnRecvData(fd)) + if r.full then [OnError(fd)] else []
  }

  function DoSend(s: Loop, fd: Fd, results: Results): Loop {
    if fd !in s.cells then s
    else
      var cell := s.cells[fd];
      var past := PastOf(s.hist, cell.conn);
      var p := SendModel.Send(Progress(cell.ring, [], 0), results, MAX_SEND_TIMES);
      s.(cells := s.cells[fd := cell.(ring := p.queue)],
         hist := Record(s.hist, cell.conn, past.(wire := past.wire + p.wire)))
  }

  /** How the socket and the callback behave while one event is served. */
  datatype World = World(script: seq<ReadResult>, answers: Answers, results: Results)

  function DoEvent(s: Loop, e: Ready, w: World): Loop {
    if e.hup then Push(s, Del(e.fd))
    else
      var s1 := if e.readable then DoRecv(s, e.fd, w.script, w.answers) else s;
      if e.writable then DoSend(s1, e.fd, w.results) else s1
  }

  // ---------------------------------------------------------------- runs

  datatype Step =
    | Accepted(fd: Fd, junk: bool) | SentBy(fd: Fd, data: seq<Byte>)
    | Pop | Drained | Checked | Woken(batch: seq<Ready>)
    | Serve(world: World) | Served

  ghost predicate OncePerClient(batch: seq<Ready>) {
    forall i, j :: 0 <= i < j < |batch| ==> batch[i].fd != batch[j].fd
  }

  /** `accept` returns descriptors that are not open; `epoll_wait` reports registered
      descriptors, each once; the loop leaves `handleTask` when the queue is empty. */
  ghost predicate Can(s: Loop, a: Step) {
    match a
    case Accepted(fd, _) => fd !in s.cells
    case SentBy(_, _) => true
    case Pop => s.phase == Draining && s.tasks != []
    case Drained => s.phase == Draining && s.tasks == []
    case Checked => s.phase == Checking
    case Woken(batch) => s.phase == Waiting && OncePerClient(batch) && forall e :: e in batch ==> e.fd in s.kernel
    case Serve(_) => s.phase.Serving? && s.phase.batch != []
    case Served => s.phase == Serving([])
  }

  function Do(s: Loop, a: Step): Loop
    requires a.Pop? ==> s.tasks != []
    requires a.Serve? ==> s.phase.Serving? && s.phase.batch != []
  {
    match a
    case Accepted(fd, junk) => Accept(s, fd, junk)
    case SentBy(fd, data) => SendTask(s, fd, data).0
    case Pop => PopTask(s)
    case Drained => s.(phase := Checking)
    case Checked => CheckWrite(s).(phase := Waiting)
    case Woken(batch) => s.(phase := Serving(batch))
    case Serve(w) => DoEvent(s, s.phase.batch[0], w).(phase := Serving(s.phase.batch[1..]))
    case Served => s.(phase := Draining)
  }

  /** Descriptors are reissued only when no queued payload still names them. */
  ghost predicate Careful(s: Loop, a: Step) {
    a.Accepted? ==> forall t :: t in s.tasks && t.Send? ==> t.fd != a.fd
  }

  /** The callback accepts every frame. */
  ghost predicate Obliging(a: Step) {
    a.Serve? ==> forall i :: a.world.answers(i)
  }

  /** What a run may rely on: careful reissue of descriptors, an obliging callback. */
  datatype Rules = Rules(careful: bool, obliging: bool)

  const FREE := Rules(false, false)

  ghost predicate Allowed(s: Loop, a: Step, rules: Rules) {
    Can(s, a) && (rules.careful ==> Careful(s, a)) && (rules.obliging ==> Obliging(a))
  }

  ghost predicate Next(s: Loop, s': Loop, rules: Rules) {
    exists a :: Allowed(s, a, rules) && s' == Do(s, a)
  }

  ghost predicate StepAt(path: seq<Loop>, i: nat, rules: Rules)
    requires i + 1 < |path|
  {
    Next(path[i], path[i + 1], rules)
  }

  /** Any number of steps from any state. */
  ghost predicate IsPath(path: seq<Loop>, rules: Rules) {
    |path| > 0 && forall i :: 0 <= i < |path| - 1 ==> StepAt(path, i, rules)
  }

  ghost predicate IsRun(run: seq<Loop>, rules: Rules) {
    IsPath(run, rules) && run[0] == Boot(run[0].cap, run[0].slots, run[0].buf)
  }

  function Last(path: seq<Loop>): Loop
    requires |path| > 0
  {
    path[|path| - 1]
  }

  lemma Extend(path: seq<Loop>, a: Step, rules: Rules)
    requires IsPath(path, rules) && Allowed(Last(path), a, rules)
    ensures IsPath(path + [Do(Last(path), a)], rules)
  {
    var longer := path + [Do(Last(path), a)];
    forall i | 0 <= i < |longer| - 1 ensures StepAt(longer, i, rules) {
      if i < |path| - 1 {
        assert StepAt(path, i, rules);
      }
    }
  }

  lemma JoinPaths(p: seq<Loop>, q: seq<Loop>, rules: Rules)
    requires IsPath(p, rules) && IsPath(q, rules) && q[0] == Last(p)
    ensures var path := p + q[1..]; IsPath(path, rules) && path[0] == p[0] && Last(path) == Last(q)
  {
    var path := p + q[1..];
    forall i | 0 <= i < |path| - 1 ensures StepAt(path, i, rules) {
      if i < |p| - 1 {
        assert StepAt(p, i, rules);
      } else {
        assert StepAt(q, i - (|p| - 1), rules);
      }
    }
  }

  /** Fewer promises allow more runs. */
  lemma FreePath(path: seq<Loop>, rules: Rules)
    requires IsPath(path, rules)
    ensures IsPath(path, FREE)
  {
    forall i | 0 <= i < |path| - 1 ensures StepAt(path, i, FREE) {
      assert StepAt(path, i, rules);
      var a :| Allowed(path[i], a, rules) && path[i + 1] == Do(path[i], a);
      assert Allowed(path[i], a, FREE);
    }
  }
}
