/** The ticketed multi-producer, single-consumer queue of base/src/mqueue.h as a
    state machine.  Every atomic access to shared memory is one step: the two reads
    of the capacity test (in either order), the fetch-and-increment, each access of
    the double-checked page look-up and its mutex, every word of a message, the flag,
    the deletion of a page and the clearing of its table entry. */
module SrtProtocol {
  import opened Arith
  import opened Messages

  /** M slots a page, C table entries, k producers, W words a message. */
  datatype Config = Config(M: nat, C: nat, k: nat, W: nat)

  ghost predicate Valid(c: Config) {
    c.M >= 1 && c.C >= 2
  }

  /** The number of messages at which `push` reports a full queue. */
  function Limit(c: Config): int {
    (c.C - 1) * c.M
  }

  /** What the page look-up touches. The table holds addresses into the heap; a freed
      address leaves the heap, and no address is ever given out twice. */
  datatype Memory = Memory(table: seq<Option<nat>>, heap: map<nat, Page>, next: nat, owner: Option<nat>)

  /** Where a thread stands inside `get_msg_page`. */
  datatype Lookup = First | Lock | Recheck | Install | Unlock | Fetch

  datatype Producer =
    | Idle
    | SawPost(msg: Msg, post: nat)
    | SawGet(msg: Msg, get: nat)
    | Admitted(msg: Msg)
    | Looking(msg: Msg, t: nat, at: Lookup)
    | Writing(msg: Msg, t: nat, page: nat, done: nat)

  datatype Consumer =
    | Ready
    | Finding(at: Lookup)
    | Testing(page: nat)
    | Copying(page: nat, buf: Msg)
    | Deleting(page: nat, buf: Msg)
    | Clearing(buf: Msg)
    | Advancing(buf: Msg)

  /** `fault` records an access to a null or freed page, or a double free.  The last
      three fields are history: who drew each ticket for which message, what each
      producer has been told was accepted, and what was popped. */
  datatype State = State(
    mem: Memory, post: nat, get: nat, ps: seq<Producer>, con: Consumer, fault: bool,
    log: seq<Entry>, sent: seq<seq<Msg>>, out: seq<Msg>)

  function Pg(c: Config, t: nat): nat
    requires c.M > 0
  { Quot(t, c.M) }

  function Off(c: Config, t: nat): nat
    requires c.M > 0
  { Rem(t, c.M) }

  /** The table entry of a page number. */
  function Ent(c: Config, n: nat): (e: nat)
    requires c.C > 0
    ensures e < c.C
  {
    QuotRem(n, c.C);
    Rem(n, c.C)
  }

  function BlankPage(c: Config, n: nat): Page {
    Page(n, seq(c.M, i => Slot(seq(c.W, j => 0), false)))
  }

  function Init(c: Config): State
    requires Valid(c)
  {
    State(
      Memory([Some(0)] + seq(c.C - 1, i => None), map[0 := BlankPage(c, 0)], 1, None),
      0, 0, seq(c.k, i => Idle), Ready, false, [], seq(c.k, i => []), [])
  }

  // ---------------------------------------------------------------- page look-up

  predicate LookEnabled(m: Memory, at: Lookup) {
    at != Fetch && (at == Lock ==> m.owner == None)
  }

  /** One step of `get_msg_page` for page number n at table entry e, by thread `who`. */
  function Look(c: Config, m: Memory, who: nat, n: nat, e: nat, at: Lookup): (Memory, Lookup)
    requires e < |m.table| && at != Fetch
  {
    match at
    case First => (m, if m.table[e] == None then Lock else Fetch)
    case Lock => (m.(owner := Some(who)), Recheck)
    case Recheck => (m, if m.table[e] == None then Install else Unlock)
    case Install =>
      (m.(table := m.table[e := Some(m.next)], heap := m.heap[m.next := BlankPage(c, n)], next := m.next + 1),
       Unlock)
    case Unlock => (m.(owner := None), Fetch)
  }

  // ---------------------------------------------------------------- producer steps

  ghost predicate Shaped(c: Config, s: State) {
    && |s.ps| == |s.sent| == c.k
    && MemShaped(c, s.mem)
    && s.get <= s.post == |s.log|
    && (s.con.Ready? || s.get < s.post)
    && (forall t {:trigger s.log[t]} :: 0 <= t < |s.log| ==> s.log[t].p < c.k && |s.log[t].msg| == c.W)
  }

  ghost predicate PageShaped(c: Config, page: Page) {
    |page.slots| == c.M && forall j :: 0 <= j < c.M ==> |page.slots[j].words| == c.W
  }

  ghost predicate MemShaped(c: Config, m: Memory) {
    && |m.table| == c.C
    && forall a :: a in m.heap ==> PageShaped(c, m.heap[a])
  }

  datatype Act =
    | ReadPost(p: nat, msg: Msg) | ReadGet(p: nat, msg: Msg) | Compare(p: nat) | Draw(p: nat)
    | PLook(p: nat) | PFetch(p: nat) | WriteWord(p: nat) | SetFlag(p: nat)
    | Begin | CLook | CFetch | Test | CopyWord | Copied | Delete | Clear | Advance

  /** The capacity test, with whatever values the two counter reads returned; shifting
      a signed difference right is division rounding down. */
  predicate Full(c: Config, post: int, get: int)
    requires c.M > 0
  {
    (post - get) / c.M >= c.C - 1
  }

  ghost predicate Enabled(c: Config, s: State, a: Act) {
    match a
    case ReadPost(p, msg) => p < |s.ps| && s.ps[p].Idle? && |msg| == c.W
    case ReadGet(p, msg) => p < |s.ps| && s.ps[p].Idle? && |msg| == c.W
    case Compare(p) => p < |s.ps| && (s.ps[p].SawPost? || s.ps[p].SawGet?)
    case Draw(p) => p < |s.ps| && s.ps[p].Admitted?
    case PLook(p) => p < |s.ps| && s.ps[p].Looking? && LookEnabled(s.mem, s.ps[p].at)
    case PFetch(p) => p < |s.ps| && s.ps[p].Looking? && s.ps[p].at == Fetch
    case WriteWord(p) => p < |s.ps| && s.ps[p].Writing? && s.ps[p].done < c.W
    case SetFlag(p) => p < |s.ps| && s.ps[p].Writing? && s.ps[p].done >= c.W
    case Begin => s.con.Ready?
    case CLook => s.con.Finding? && LookEnabled(s.mem, s.con.at)
    case CFetch => s.con.Finding? && s.con.at == Fetch
    case Test => s.con.Testing?
    case CopyWord => s.con.Copying? && |s.con.buf| < c.W
    case Copied => s.con.Copying? && |s.con.buf| >= c.W
    case Delete => s.con.Deleting?
    case Clear => s.con.Clearing?
    case Advance => s.con.Advancing?
  }

  function At(s: State, p: nat, q: Producer): State
    requires p < |s.ps|
  {
    s.(ps := s.ps[p := q])
  }

  function DoCompare(c: Config, s: State, p: nat): State
    requires Valid(c) && p < |s.ps| && (s.ps[p].SawPost? || s.ps[p].SawGet?)
  {
    var q := s.ps[p];
    var full := if q.SawPost? then Full(c, q.post, s.get) else Full(c, s.post, q.get);
    At(s, p, if full then Idle else Admitted(q.msg))
  }

  function DoDraw(s: State, p: nat): State
    requires p < |s.ps| && s.ps[p].Admitted?
  {
    var msg := s.ps[p].msg;
    At(s, p, Looking(msg, s.post, First)).(post := s.post + 1, log := s.log + [Entry(p, msg)])
  }

  function DoPLook(c: Config, s: State, p: nat): State
    requires Valid(c) && Shaped(c, s) && p < |s.ps| && s.ps[p].Looking? && LookEnabled(s.mem, s.ps[p].at)
  {
    var q := s.ps[p];
    var n := Pg(c, q.t);
    var (m, at) := Look(c, s.mem, p, n, Ent(c, n), q.at);
    At(s, p, q.(at := at)).(mem := m)
  }

  function DoPFetch(c: Config, s: State, p: nat): State
    requires Valid(c) && Shaped(c, s) && p < |s.ps| && s.ps[p].Looking?
  {
    var q := s.ps[p];
    match s.mem.table[Ent(c, Pg(c, q.t))]
    case None => s.(fault := true)
    case Some(a) => At(s, p, Writing(q.msg, q.t, a, 0))
  }

  function Poke(m: Memory, a: nat, j: nat, slot: Slot): Memory
    requires a in m.heap && j < |m.heap[a].slots|
  {
    m.(heap := m.heap[a := m.heap[a].(slots := m.heap[a].slots[j := slot])])
  }

  function DoWriteWord(c: Config, s: State, p: nat): State
    requires Valid(c) && Shaped(c, s) && p < |s.ps| && s.ps[p].Writing? && s.ps[p].done < c.W
    requires |s.ps[p].msg| == c.W
  {
    var q := s.ps[p];
    if q.page !in s.mem.heap then s.(fault := true)
    else
      QuotRem(q.t, c.M);
      var j := Off(c, q.t);
      var slot := s.mem.heap[q.page].slots[j];
      At(s, p, q.(done := q.done + 1)).(
        mem := Poke(s.mem, q.page, j, slot.(words := slot.words[q.done := q.msg[q.done]])))
  }

  function DoSetFlag(c: Config, s: State, p: nat): State
    requires Valid(c) && Shaped(c, s) && p < |s.ps| && s.ps[p].Writing?
  {
    var q := s.ps[p];
    if q.page !in s.mem.heap then s.(fault := true)
    else
      QuotRem(q.t, c.M);
      var j := Off(c, q.t);
      var slot := s.mem.heap[q.page].slots[j];
      At(s, p, Idle).(
        mem := Poke(s.mem, q.page, j, slot.(flag := true)),
        sent := s.sent[p := s.sent[p] + [q.msg]])
  }

  // ---------------------------------------------------------------- consumer steps

  function DoBegin(s: State): State {
    if s.get >= s.post then s else s.(con := Finding(First))
  }

  function DoCLook(c: Config, s: State): State
    requires Valid(c) && Shaped(c, s) && s.con.Finding? && LookEnabled(s.mem, s.con.at)
  {
    var n := Pg(c, s.get);
    var (m, at) := Look(c, s.mem, c.k, n, Ent(c, n), s.con.at);
    s.(mem := m, con := Finding(at))
  }

  function DoCFetch(c: Config, s: State): State
    requires Valid(c) && Shaped(c, s)
  {
    match s.mem.table[Ent(c, Pg(c, s.get))]
    case None => s.(fault := true)
    case Some(a) => s.(con := Testing(a))
  }

  function DoTest(c: Config, s: State): State
    requires Valid(c) && Shaped(c, s) && s.con.Testing?
  {
    var a := s.con.page;
    if a !in s.mem.heap then s.(fault := true)
    else
      QuotRem(s.get, c.M);
      s.(con := if s.mem.heap[a].slots[Off(c, s.get)].flag then Copying(a, []) else Ready)
  }

  function DoCopyWord(c: Config, s: State): State
    requires Valid(c) && Shaped(c, s) && s.con.Copying? && |s.con.buf| < c.W
  {
    var Copying(a, buf) := s.con;
    if a !in s.mem.heap then s.(fault := true)
    else
      QuotRem(s.get, c.M);
      s.(con := Copying(a, buf + [s.mem.heap[a].slots[Off(c, s.get)].words[|buf|]]))
  }

  function DoCopied(c: Config, s: State): State
    requires Valid(c) && s.con.Copying?
  {
    var Copying(a, buf) := s.con;
    s.(con := if Off(c, s.get) == c.M - 1 then Deleting(a, buf) else Advancing(buf))
  }

  function DoDelete(s: State): State
    requires s.con.Deleting?
  {
    var Deleting(a, buf) := s.con;
    if a !in s.mem.heap then s.(fault := true)
    else s.(mem := s.mem.(heap := s.mem.heap - {a}), con := Clearing(buf))
  }

  function DoClear(c: Config, s: State): State
    requires Valid(c) && Shaped(c, s) && s.con.Clearing?
  {
    s.(mem := s.mem.(table := s.mem.table[Ent(c, Pg(c, s.get)) := None]), con := Advancing(s.con.buf))
  }

  function DoAdvance(s: State): State
    requires s.con.Advancing?
  {
    s.(get := s.get + 1, out := s.out + [s.con.buf], con := Ready)
  }

  // ---------------------------------------------------------------- runs

  ghost predicate Carries(c: Config, q: Producer) {
    q.Idle? || |q.msg| == c.W
  }

  /** Every producer that is pushing carries a whole message. */
  ghost predicate Loaded(c: Config, s: State) {
    forall p :: 0 <= p < |s.ps| ==> Carries(c, s.ps[p])
  }

  ghost function Do(c: Config, s: State, a: Act): State
    requires Valid(c) && Shaped(c, s) && Loaded(c, s) && Enabled(c, s, a)
  {
    match a
    case ReadPost(p, msg) => At(s, p, SawPost(msg, s.post))
    case ReadGet(p, msg) => At(s, p, SawGet(msg, s.get))
    case Compare(p) => DoCompare(c, s, p)
    case Draw(p) => DoDraw(s, p)
    case PLook(p) => DoPLook(c, s, p)
    case PFetch(p) => DoPFetch(c, s, p)
    case WriteWord(p) => assert Carries(c, s.ps[p]); DoWriteWord(c, s, p)
    case SetFlag(p) => DoSetFlag(c, s, p)
    case Begin => DoBegin(s)
    case CLook => DoCLook(c, s)
    case CFetch => DoCFetch(c, s)
    case Test => DoTest(c, s)
    case CopyWord => DoCopyWord(c, s)
    case Copied => DoCopied(c, s)
    case Delete => DoDelete(s)
    case Clear => DoClear(c, s)
    case Advance => DoAdvance(s)
  }

  /** One step of the system, with no assumption about who moves. */
  ghost predicate Next(c: Config, s: State, s': State)
    requires Valid(c)
  {
    Shaped(c, s) && Loaded(c, s) && exists a :: Enabled(c, s, a) && s' == Do(c, s, a)
  }

  ghost predicate StepAt(c: Config, run: seq<State>, i: nat)
    requires Valid(c) && i + 1 < |run|
  {
    Next(c, run[i], run[i + 1])
  }

  ghost predicate IsRun(c: Config, run: seq<State>)
    requires Valid(c)
  {
    |run| > 0 && run[0] == Init(c) && forall i :: 0 <= i < |run| - 1 ==> StepAt(c, run, i)
  }

  /** `Shaped` and `Loaded`, which the steps above ask for, cost no behaviour: they hold
      initially and every step keeps them. */
  lemma ShapeHolds(c: Config)
    requires Valid(c)
    ensures Shaped(c, Init(c)) && Loaded(c, Init(c))
  {
  }

  lemma LookKeepsShape(c: Config, m: Memory, who: nat, n: nat, e: nat, at: Lookup)
    requires MemShaped(c, m) && e < |m.table| && at != Fetch
    ensures MemShaped(c, Look(c, m, who, n, e, at).0)
  {
  }

  lemma PokeKeepsShape(c: Config, m: Memory, a: nat, j: nat, slot: Slot)
    requires MemShaped(c, m) && a in m.heap && j < c.M && |slot.words| == c.W
    ensures PageShaped(c, m.heap[a]) && MemShaped(c, Poke(m, a, j, slot))
  {
  }

  lemma StepKeepsShape(c: Config, s: State, a: Act)
    requires Valid(c) && Shaped(c, s) && Loaded(c, s) && Enabled(c, s, a)
    ensures Shaped(c, Do(c, s, a)) && Loaded(c, Do(c, s, a))
  {
    match a
    case Compare(p) => assert Carries(c, s.ps[p]);
    case Draw(p) => assert Carries(c, s.ps[p]);
    case PLook(p) =>
      var q := s.ps[p];
      assert Carries(c, q);
      LookKeepsShape(c, s.mem, p, Pg(c, q.t), Ent(c, Pg(c, q.t)), q.at);
    case PFetch(p) => assert Carries(c, s.ps[p]);
    case WriteWord(p) => WriteKeepsShape(c, s, p);
    case SetFlag(p) => WriteKeepsShape(c, s, p);
    case CLook =>
      LookKeepsShape(c, s.mem, c.k, Pg(c, s.get), Ent(c, Pg(c, s.get)), s.con.at);
    case _ =>
  }

  lemma WriteKeepsShape(c: Config, s: State, p: nat)
    requires Valid(c) && Shaped(c, s) && Loaded(c, s) && p < |s.ps| && s.ps[p].Writing?
    ensures Carries(c, s.ps[p])
    ensures s.ps[p].done < c.W ==> var s' := DoWriteWord(c, s, p); Shaped(c, s') && Loaded(c, s')
    ensures var s' := DoSetFlag(c, s, p); Shaped(c, s') && Loaded(c, s')
  {
    var q := s.ps[p];
    assert Carries(c, q);
    QuotRem(q.t, c.M);
    var j := Off(c, q.t);
    if q.page in s.mem.heap {
      var slot := s.mem.heap[q.page].slots[j];
      assert PageShaped(c, s.mem.heap[q.page]);
      PokeKeepsShape(c, s.mem, q.page, j, slot.(flag := true));
      if q.done < c.W {
        PokeKeepsShape(c, s.mem, q.page, j, slot.(words := slot.words[q.done := q.msg[q.done]]));
      }
    }
  }

  lemma {:induction false} RunsKeepShape(c: Config, run: seq<State>)
    requires Valid(c) && IsRun(c, run)
    ensures forall i :: 0 <= i < |run| ==> Shaped(c, run[i]) && Loaded(c, run[i])
    decreases |run|
  {
    ShapeHolds(c);
    if |run| > 1 {
      var n := |run| - 1;
      assert StepAt(c, run, n - 1);
      var a :| Enabled(c, run[n - 1], a) && run[n] == Do(c, run[n - 1], a);
      StepKeepsShape(c, run[n - 1], a);
      ShorterRun(c, run);
      RunsKeepShape(c, run[..n]);
    }
  }

  lemma ShorterRun(c: Config, run: seq<State>)
    requires Valid(c) && IsRun(c, run) && |run| > 1
    ensures IsRun(c, run[..|run| - 1])
  {
    var short := run[..|run| - 1];
    forall i | 0 <= i < |short| - 1 ensures StepAt(c, short, i) {
      assert StepAt(c, run, i);
    }
  }
}
