/** The append-only queue `drb_queue` of base/src/mqueue.h as a state machine: k producers
    and one reader.  A page look-up, with the growth of the page table inside it, is one
    step; the message is written and read word by word. */
module DrbProtocol {
  import opened Arith
  import opened Messages

  /** M messages a page, `start` initial table entries, k producers, W words a message. */
  datatype Setup = Setup(M: nat, start: nat, k: nat, W: nat)

  ghost predicate Proper(c: Setup) {
    c.M >= 1 && c.start >= 1
  }

  datatype Writer =
    | Free
    | Drawn(msg: Msg, t: nat)
    | Storing(msg: Msg, t: nat, page: nat, done: nat)
    | Flagged(msg: Msg, t: nat)

  datatype Reader =
    | Asking
    | Finding(pos: nat)
    | Testing(pos: nat, page: nat)
    | Copying(pos: nat, page: nat, buf: Msg)

  datatype Reading = Reading(pos: nat, msg: Msg)

  /** Pages are never freed, so an address is an index into `heap`. `table` maps page
      numbers to addresses; `answers` are the (position, message) pairs `get` returned. */
  datatype Queue = Queue(
    table: seq<Option<nat>>, heap: seq<Page>, post: nat, written: nat, ps: seq<Writer>, reader: Reader,
    fault: bool, log: seq<Entry>, answers: seq<Reading>)

  function Number(c: Setup, t: nat): nat
    requires c.M > 0
  { Quot(t, c.M) }

  function Place(c: Setup, t: nat): (j: nat)
    requires c.M > 0
    ensures j < c.M
  {
    QuotRem(t, c.M);
    Rem(t, c.M)
  }

  function EmptyPage(c: Setup, n: nat): Page {
    Page(n, seq(c.M, i => Slot(seq(c.W, j => 0), false)))
  }

  function Start(c: Setup): Queue
    requires Proper(c)
  {
    Queue([Some(0)] + seq(c.start - 1, i => None), [EmptyPage(c, 0)], 0, 0,
          seq(c.k, i => Free), Asking, false, [], [])
  }

  // ---------------------------------------------------------------- page look-up and growth

  /** The loop that doubles the new table size while the page number exceeds it. */
  function Extend(size: nat, n: nat): (r: nat)
    requires size >= 1
    ensures r >= size && r >= n
    decreases n - size
  {
    if n > size then Extend(2 * size, n) else size
  }

  /** The table after a look-up of page n has made room for it. */
  function Grown(table: seq<Option<nat>>, n: nat): (r: seq<Option<nat>>)
    requires |table| >= 1
    ensures table <= r
  {
    if n >= |table| then table + seq(Extend(2 * |table|, n) - |table|, i => None) else table
  }

  /** `get_msg_page` for page n: the queue afterwards, and the address of the page. */
  function GetPage(c: Setup, s: Queue, n: nat): (Queue, Option<nat>)
    requires Proper(c) && |s.table| >= 1
  {
    var table := Grown(s.table, n);
    if n >= |table| then (s.(table := table, fault := true), None)
    else if table[n] == None then
      (s.(table := table[n := Some(|s.heap|)], heap := s.heap + [EmptyPage(c, n)]), Some(|s.heap|))
    else (s.(table := table), table[n])
  }

  // ---------------------------------------------------------------- steps

  ghost predicate PageFits(c: Setup, page: Page) {
    |page.slots| == c.M && forall j :: 0 <= j < c.M ==> |page.slots[j].words| == c.W
  }

  ghost predicate WriterFits(c: Setup, s: Queue, w: Writer) {
    (w.Free? || |w.msg| == c.W) && (w.Storing? ==> w.page < |s.heap|)
  }

  ghost predicate ReaderFits(c: Setup, s: Queue) {
    s.reader.Testing? || s.reader.Copying? ==> s.reader.page < |s.heap|
  }

  ghost predicate Fits(c: Setup, s: Queue) {
    && |s.ps| == c.k && |s.table| >= 1 && s.post == |s.log|
    && (forall t :: 0 <= t < |s.log| ==> s.log[t].p < c.k && |s.log[t].msg| == c.W)
    && (forall a :: 0 <= a < |s.heap| ==> PageFits(c, s.heap[a]))
    && (forall p :: 0 <= p < c.k ==> WriterFits(c, s, s.ps[p]))
    && ReaderFits(c, s)
    && (forall n :: 0 <= n < |s.table| && s.table[n].Some? ==> s.table[n].value < |s.heap|)
  }

  datatype Move =
    | Draw(p: nat, msg: Msg) | Lookup(p: nat) | StoreWord(p: nat) | Flag(p: nat) | Return(p: nat)
    | Get(pos: nat) | Find | Test | CopyWord | Answer

  ghost predicate Can(c: Setup, s: Queue, m: Move) {
    match m
    case Draw(p, msg) => p < |s.ps| && s.ps[p].Free? && |msg| == c.W
    case Lookup(p) => p < |s.ps| && s.ps[p].Drawn?
    case StoreWord(p) => p < |s.ps| && s.ps[p].Storing? && s.ps[p].done < c.W
    case Flag(p) => p < |s.ps| && s.ps[p].Storing? && s.ps[p].done >= c.W
    case Return(p) => p < |s.ps| && s.ps[p].Flagged?
    case Get(pos) => s.reader.Asking?
    case Find => s.reader.Finding?
    case Test => s.reader.Testing?
    case CopyWord => s.reader.Copying? && |s.reader.buf| < c.W
    case Answer => s.reader.Copying? && |s.reader.buf| >= c.W
  }

  function Put(s: Queue, p: nat, w: Writer): Queue
    requires p < |s.ps|
  {
    s.(ps := s.ps[p := w])
  }

  function SetSlot(heap: seq<Page>, a: nat, j: nat, slot: Slot): seq<Page>
    requires a < |heap| && j < |heap[a].slots|
  {
    heap[a := heap[a].(slots := heap[a].slots[j := slot])]
  }

  function DoLookup(c: Setup, s: Queue, p: nat): Queue
    requires Proper(c) && |s.table| >= 1 && p < |s.ps| && s.ps[p].Drawn?
  {
    var w := s.ps[p];
    match GetPage(c, s, Number(c, w.t))
    case (q, None) => q
    case (q, Some(a)) => Put(q, p, Storing(w.msg, w.t, a, 0))
  }

  function DoStore(c: Setup, s: Queue, p: nat, flag: bool): Queue
    requires Proper(c) && Fits(c, s) && p < |s.ps| && s.ps[p].Storing? && (flag || s.ps[p].done < c.W)
  {
    var w := s.ps[p];
    assert WriterFits(c, s, w) && PageFits(c, s.heap[w.page]);
    var j := Place(c, w.t);
    var slot := s.heap[w.page].slots[j];
    if flag then
      Put(s, p, Flagged(w.msg, w.t)).(heap := SetSlot(s.heap, w.page, j, slot.(flag := true)))
    else
      Put(s, p, w.(done := w.done + 1)).(
        heap := SetSlot(s.heap, w.page, j, slot.(words := slot.words[w.done := w.msg[w.done]])))
  }

  function DoFind(c: Setup, s: Queue): Queue
    requires Proper(c) && |s.table| >= 1 && s.reader.Finding?
  {
    match GetPage(c, s, Number(c, s.reader.pos))
    case (q, None) => q
    case (q, Some(a)) => q.(reader := Testing(s.reader.pos, a))
  }

  function SlotAt(c: Setup, s: Queue, a: nat, t: nat): (slot: Slot)
    requires Proper(c) && Fits(c, s) && a < |s.heap|
    ensures |slot.words| == c.W
  {
    assert PageFits(c, s.heap[a]);
    s.heap[a].slots[Place(c, t)]
  }

  function DoRead(c: Setup, s: Queue): Queue
    requires Proper(c) && Fits(c, s) && (s.reader.Testing? || s.reader.Copying?)
    requires s.reader.Copying? ==> |s.reader.buf| < c.W
  {
    match s.reader
    case Testing(pos, a) => s.(reader := if SlotAt(c, s, a, pos).flag then Copying(pos, a, []) else Asking)
    case Copying(pos, a, buf) => s.(reader := Copying(pos, a, buf + [SlotAt(c, s, a, pos).words[|buf|]]))
  }

  ghost function Make(c: Setup, s: Queue, m: Move): Queue
    requires Proper(c) && Fits(c, s) && Can(c, s, m)
  {
    match m
    case Draw(p, msg) => Put(s, p, Drawn(msg, s.post)).(post := s.post + 1, log := s.log + [Entry(p, msg)])
    case Lookup(p) => DoLookup(c, s, p)
    case StoreWord(p) => DoStore(c, s, p, false)
    case Flag(p) => DoStore(c, s, p, true)
    case Return(p) => Put(s, p, Free).(written := s.written + 1)
    case Get(pos) => if s.written <= pos then s else s.(reader := Finding(pos))
    case Find => DoFind(c, s)
    case Test => DoRead(c, s)
    case CopyWord => DoRead(c, s)
    case Answer => s.(reader := Asking, answers := s.answers + [Reading(s.reader.pos, s.reader.buf)])
  }

  // ---------------------------------------------------------------- runs

  /** One step of the system, with no assumption about who moves. */
  ghost predicate Next(c: Setup, s: Queue, s': Queue)
    requires Proper(c)
  {
    Fits(c, s) && exists m :: Can(c, s, m) && s' == Make(c, s, m)
  }

  ghost predicate StepAt(c: Setup, run: seq<Queue>, i: nat)
    requires Proper(c) && i + 1 < |run|
  {
    Next(c, run[i], run[i + 1])
  }

  ghost predicate IsRun(c: Setup, run: seq<Queue>)
    requires Proper(c)
  {
    |run| > 0 && run[0] == Start(c) && forall i :: 0 <= i < |run| - 1 ==> StepAt(c, run, i)
  }

  ghost predicate Reached(c: Setup, s: Queue)
    requires Proper(c)
  {
    exists run: seq<Queue> :: IsRun(c, run) && run[|run| - 1] == s
  }

  lemma ShorterRun(c: Setup, run: seq<Queue>)
    requires Proper(c) && IsRun(c, run) && |run| > 1
    ensures IsRun(c, run[..|run| - 1])
  {
    var short := run[..|run| - 1];
    forall i | 0 <= i < |short| - 1 ensures StepAt(c, short, i) {
      assert StepAt(c, run, i);
    }
  }

  lemma LongerRun(c: Setup, run: seq<Queue>, s: Queue)
    requires Proper(c) && IsRun(c, run) && Next(c, run[|run| - 1], s)
    ensures IsRun(c, run + [s])
  {
    var longer := run + [s];
    forall i | 0 <= i < |longer| - 1 ensures StepAt(c, longer, i) {
      if i < |run| - 1 {
        assert StepAt(c, run, i);
      }
    }
  }

  lemma GetPageFits(c: Setup, s: Queue, n: nat)
    requires Proper(c) && Fits(c, s)
    ensures var (q, a) := GetPage(c, s, n); Fits(c, q) && (a.Some? ==> a.value < |q.heap|)
  {
    var (q, a) := GetPage(c, s, n);
    forall p | 0 <= p < c.k ensures WriterFits(c, q, q.ps[p]) { assert WriterFits(c, s, s.ps[p]); }
  }

  lemma DoStoreFits(c: Setup, s: Queue, p: nat, flag: bool)
    requires Proper(c) && Fits(c, s) && p < c.k && s.ps[p].Storing? && (flag || s.ps[p].done < c.W)
    ensures Fits(c, DoStore(c, s, p, flag))
  {
    var s', w := DoStore(c, s, p, flag), s.ps[p];
    assert WriterFits(c, s, w) && PageFits(c, s.heap[w.page]);
    forall a | 0 <= a < |s'.heap| ensures PageFits(c, s'.heap[a]) { assert PageFits(c, s.heap[a]); }
    forall i | 0 <= i < c.k ensures WriterFits(c, s', s'.ps[i]) { assert WriterFits(c, s, s.ps[i]); }
  }

  /** `Fits`, which every step asks for, holds in every reachable state. */
  lemma MakeFits(c: Setup, s: Queue, m: Move)
    requires Proper(c) && Fits(c, s) && Can(c, s, m)
    ensures Fits(c, Make(c, s, m))
  {
    var s' := Make(c, s, m);
    match m {
      case Lookup(p) => GetPageFits(c, s, Number(c, s.ps[p].t));
      case StoreWord(p) => DoStoreFits(c, s, p, false);
      case Flag(p) => DoStoreFits(c, s, p, true);
      case Find => GetPageFits(c, s, Number(c, s.reader.pos));
      case _ =>
    }
    if !m.StoreWord? && !m.Flag? {
      forall i | 0 <= i < c.k ensures WriterFits(c, s', s'.ps[i]) { assert WriterFits(c, s, s.ps[i]); }
    }
  }
}
