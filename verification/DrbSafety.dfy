/** What the append-only queue guarantees, and for how many producers: positions keep
    their message for ever, and the page table never overflows, exactly when at most
    (initial table size) * (page size) producers share the queue. */
module DrbSafety {
  import opened Arith
  import opened Messages
  import opened DrbProtocol

  predicate Unflagged(w: Writer, t: nat) {
    (w.Drawn? || w.Storing?) && w.t == t
  }

  /** Ticket t has been drawn and its flag has been set. */
  predicate Up(s: Queue, t: nat) {
    t < |s.log| && s.log[t].p < |s.ps| && !Unflagged(s.ps[s.log[t].p], t)
  }

  /** Producers inside `push`, from the ticket to the increment of `write_index_`. */
  ghost function Busy(s: Queue): set<nat> {
    set p | 0 <= p < |s.ps| && !s.ps[p].Free?
  }

  ghost predicate Present(c: Setup, s: Queue, t: nat)
    requires Proper(c)
  {
    Number(c, t) < |s.table| && s.table[Number(c, t)].Some?
  }

  // ---------------------------------------------------------------- the invariant

  ghost predicate AddressOk(c: Setup, s: Queue, a: nat)
    requires a < |s.heap|
  {
    s.heap[a].num < |s.table| && s.table[s.heap[a].num] == Some(a)
  }

  ghost predicate EntryOk(c: Setup, s: Queue, n: nat)
    requires Fits(c, s) && n < |s.table|
  {
    s.table[n].Some? ==> s.heap[s.table[n].value].num == n
  }

  ghost predicate SlotOk(c: Setup, s: Queue, a: nat, t: nat)
    requires Proper(c) && Fits(c, s) && a < |s.heap|
  {
    Number(c, t) == s.heap[a].num ==>
      && (SlotAt(c, s, a, t).flag <==> Up(s, t))
      && (Up(s, t) ==> SlotAt(c, s, a, t).words == s.log[t].msg)
  }

  ghost predicate WriterOk(c: Setup, s: Queue, p: nat)
    requires Proper(c) && Fits(c, s) && p < c.k
  {
    var w := s.ps[p];
    assert WriterFits(c, s, w);
    && (!w.Free? ==> w.t < s.post && s.log[w.t] == Entry(p, w.msg))
    && (w.Storing? ==>
          && s.heap[w.page].num == Number(c, w.t) && w.done <= c.W
          && SlotAt(c, s, w.page, w.t).words[..w.done] == w.msg[..w.done])
  }

  ghost predicate ReaderOk(c: Setup, s: Queue)
    requires Proper(c) && Fits(c, s)
  {
    match s.reader
    case Asking => true
    case Finding(pos) => pos < s.written
    case Testing(pos, a) => pos < s.written && s.heap[a].num == Number(c, pos)
    case Copying(pos, a, buf) =>
      && pos < s.written
      && s.heap[a].num == Number(c, pos) && Up(s, pos) && |buf| <= c.W && buf == s.log[pos].msg[..|buf|]
  }

  /** The two tests of `get`, against `write_index_` and against the flag, would both succeed. */
  predicate Readable(s: Queue, pos: nat) {
    pos < s.written && Up(s, pos)
  }

  /** Every answer was, and stays, the message of the ticket at that position. */
  ghost predicate AnswersOk(s: Queue) {
    forall r :: r in s.answers ==> Readable(s, r.pos) && s.log[r.pos].msg == r.msg
  }

  ghost predicate PagesOk(c: Setup, s: Queue)
    requires Proper(c) && Fits(c, s)
  {
    && (forall a :: 0 <= a < |s.heap| ==> AddressOk(c, s, a))
    && (forall n :: 0 <= n < |s.table| ==> EntryOk(c, s, n))
    && (forall a, t: nat :: 0 <= a < |s.heap| ==> SlotOk(c, s, a, t))
    && (forall t: nat :: Up(s, t) ==> Present(c, s, t))
  }

  ghost predicate Inv(c: Setup, s: Queue)
    requires Proper(c)
  {
    && Fits(c, s) && !s.fault && |s.table| >= c.start
    && s.written + |Busy(s)| == s.post
    && PagesOk(c, s)
    && (forall p :: 0 <= p < c.k ==> WriterOk(c, s, p))
    && ReaderOk(c, s) && AnswersOk(s)
  }

  lemma StartInv(c: Setup)
    requires Proper(c)
    ensures Inv(c, Start(c))
  {
    var s := Start(c);
    assert Busy(s) == {};
    forall p | 0 <= p < c.k ensures WriterFits(c, s, s.ps[p]) {}
  }

  /** A step that leaves heap, table and raised flags alone keeps the memory invariants. */
  lemma PagesKept(c: Setup, s: Queue, s': Queue)
    requires Proper(c) && Fits(c, s) && PagesOk(c, s) && Fits(c, s')
    requires s'.heap == s.heap && s'.table == s.table && s.log <= s'.log
    requires forall t: nat :: Up(s', t) <==> Up(s, t)
    ensures PagesOk(c, s')
  {
    hide Number, Up;
    forall a, t: nat | 0 <= a < |s.heap| ensures SlotOk(c, s', a, t) {
      assert SlotOk(c, s, a, t);
      UpIsDrawn(s, t);
    }
    forall a | 0 <= a < |s.heap| ensures AddressOk(c, s', a) { assert AddressOk(c, s, a); }
    forall n | 0 <= n < |s.table| ensures EntryOk(c, s', n) { assert EntryOk(c, s, n); }
    forall t: nat | Up(s', t) ensures Present(c, s', t) { assert Present(c, s, t); }
  }

  lemma UpIsDrawn(s: Queue, t: nat)
    ensures Up(s, t) ==> t < |s.log|
  {
  }

  lemma WriterKept(c: Setup, s: Queue, s': Queue, p: nat)
    requires Proper(c) && Fits(c, s) && Fits(c, s') && p < c.k && WriterOk(c, s, p)
    requires s'.heap == s.heap && s.log <= s'.log && s'.ps[p] == s.ps[p]
    ensures WriterOk(c, s', p)
  {
    assert WriterFits(c, s, s.ps[p]);
  }

  // ---------------------------------------------------------------- look-up

  lemma GetPageInv(c: Setup, s: Queue, n: nat)
    requires Proper(c) && Inv(c, s)
    ensures var (q, x) := GetPage(c, s, n);
      && Fits(c, q) && q.ps == s.ps && q.log == s.log && q.post == s.post && q.written == s.written
      && q.reader == s.reader && q.answers == s.answers
      && (q.fault <==> n >= |Grown(s.table, n)|)
      && (!q.fault ==> Inv(c, q) && x.Some? && x.value < |q.heap| && q.heap[x.value].num == n)
  {
    GetPageFits(c, s, n);
    var (q, x) := GetPage(c, s, n);
    if !q.fault {
      GetPagePages(c, s, n);
      forall p | 0 <= p < c.k ensures WriterOk(c, q, p) {
        assert WriterFits(c, s, s.ps[p]) && WriterOk(c, s, p);
      }
      assert Busy(q) == Busy(s);
    }
  }

  lemma GetPagePages(c: Setup, s: Queue, n: nat)
    requires Proper(c) && Inv(c, s) && n < |Grown(s.table, n)|
    ensures var (q, x) := GetPage(c, s, n);
      Fits(c, q) && PagesOk(c, q) && x.Some? && x.value < |q.heap| && q.heap[x.value].num == n
  {
    GetPageFits(c, s, n);
    var (q, x) := GetPage(c, s, n);
    forall a | 0 <= a < |q.heap| ensures AddressOk(c, q, a) {
      if a < |s.heap| { assert AddressOk(c, s, a); }
    }
    forall i | 0 <= i < |q.table| ensures EntryOk(c, q, i) {
      if i < |s.table| { assert EntryOk(c, s, i); }
    }
    assert EntryOk(c, q, n);
    forall a, t: nat | 0 <= a < |q.heap| ensures SlotOk(c, q, a, t) {
      if a < |s.heap| {
        assert SlotOk(c, s, a, t);
      } else {
        assert Up(s, t) ==> Present(c, s, t);
      }
    }
    forall t: nat | Up(q, t) ensures Present(c, q, t) { assert Up(s, t) && Present(c, s, t); }
  }

  // ---------------------------------------------------------------- steps

  lemma DrawInv(c: Setup, s: Queue, p: nat, msg: Msg)
    requires Proper(c) && Inv(c, s) && Can(c, s, Draw(p, msg))
    ensures Inv(c, Make(c, s, Draw(p, msg)))
  {
    var s' := Make(c, s, Draw(p, msg));
    MakeFits(c, s, Draw(p, msg));
    assert forall t: nat :: Up(s', t) <==> Up(s, t);
    assert Busy(s') == Busy(s) + {p};
    PagesKept(c, s, s');
    forall i | 0 <= i < c.k ensures WriterOk(c, s', i) { if i != p { WriterKept(c, s, s', i); } }
  }

  lemma LookupInv(c: Setup, s: Queue, p: nat)
    requires Proper(c) && Inv(c, s) && Can(c, s, Lookup(p)) && !Make(c, s, Lookup(p)).fault
    ensures Inv(c, Make(c, s, Lookup(p)))
  {
    var w := s.ps[p];
    var n := Number(c, w.t);
    GetPageInv(c, s, n);
    var (q, x) := GetPage(c, s, n);
    var s' := Make(c, s, Lookup(p));
    MakeFits(c, s, Lookup(p));
    assert WriterOk(c, s, p) && WriterFits(c, s, w);
    assert s' == Put(q, p, Storing(w.msg, w.t, x.value, 0));
    ChangeWriter(c, q, p, Storing(w.msg, w.t, x.value, 0));
  }

  /** Replacing a writer by one that holds the same ticket in the same phase of `Up`. */
  lemma ChangeWriter(c: Setup, s: Queue, p: nat, w: Writer)
    requires Proper(c) && Inv(c, s) && p < c.k && Fits(c, Put(s, p, w))
    requires !s.ps[p].Free? && !w.Free? && WriterOk(c, Put(s, p, w), p)
    requires forall t :: Unflagged(w, t) <==> Unflagged(s.ps[p], t)
    ensures Inv(c, Put(s, p, w))
  {
    var s' := Put(s, p, w);
    assert forall t: nat :: Up(s', t) <==> Up(s, t);
    assert Busy(s') == Busy(s);
    PagesKept(c, s, s');
    forall i | 0 <= i < c.k ensures WriterOk(c, s', i) { if i != p { WriterKept(c, s, s', i); } }
  }

  /** Writing one ticket's slot leaves all other tickets' slots alone. */
  lemma OneSlot(c: Setup, s: Queue, p: nat, flag: bool, a: nat, t: nat)
    requires Proper(c) && Fits(c, s) && p < c.k && s.ps[p].Storing? && (flag || s.ps[p].done < c.W)
    requires a < |s.heap| && WriterOk(c, s, p) && s.heap[a].num == Number(c, t)
    ensures Fits(c, DoStore(c, s, p, flag))
    ensures var w, s' := s.ps[p], DoStore(c, s, p, flag);
      && |s'.heap| == |s.heap| && s'.heap[a].num == s.heap[a].num
      && (!(a == w.page && t == w.t) ==> SlotAt(c, s', a, t) == SlotAt(c, s, a, t))
      && SlotAt(c, s', w.page, w.t) ==
           (var slot := SlotAt(c, s, w.page, w.t);
            if flag then slot.(flag := true) else Slot(slot.words[w.done := w.msg[w.done]], slot.flag))
  {
    var w := s.ps[p];
    DoStoreFits(c, s, p, flag);
    assert WriterFits(c, s, w) && PageFits(c, s.heap[w.page]);
    if a == w.page && t != w.t && Place(c, t) == Place(c, w.t) {
      SameCell(t, w.t, c.M);
    }
  }

  lemma StoreWriters(c: Setup, s: Queue, p: nat, flag: bool, i: nat)
    requires Proper(c) && Inv(c, s) && p < c.k && i < c.k && s.ps[p].Storing? && (flag <==> s.ps[p].done >= c.W)
    ensures Fits(c, DoStore(c, s, p, flag)) && WriterOk(c, DoStore(c, s, p, flag), i)
  {
    var w := s.ps[p];
    assert WriterFits(c, s, w) && WriterOk(c, s, p);
    assert WriterFits(c, s, s.ps[i]) && WriterOk(c, s, i);
    DoStoreFits(c, s, p, flag);
    if s.ps[i].Storing? {
      OneSlot(c, s, p, flag, s.ps[i].page, s.ps[i].t);
    }
    if i == p && !flag {
      var words := SlotAt(c, s, w.page, w.t).words;
      assert words[w.done := w.msg[w.done]][..w.done + 1] == words[..w.done] + [w.msg[w.done]];
      assert w.msg[..w.done + 1] == w.msg[..w.done] + [w.msg[w.done]];
    }
  }

  lemma StoreSlots(c: Setup, s: Queue, p: nat, flag: bool, a: nat, t: nat)
    requires Proper(c) && Inv(c, s) && p < c.k && s.ps[p].Storing? && (flag <==> s.ps[p].done >= c.W)
    requires a < |s.heap| && Fits(c, DoStore(c, s, p, flag)) && |DoStore(c, s, p, flag).heap| == |s.heap|
    ensures SlotOk(c, DoStore(c, s, p, flag), a, t)
  {
    var w := s.ps[p];
    assert WriterFits(c, s, w) && WriterOk(c, s, p);
    assert SlotOk(c, s, a, t) && AddressOk(c, s, a) && AddressOk(c, s, w.page);
    OneSlot(c, s, p, flag, w.page, w.t);
    if s.heap[a].num == Number(c, t) {
      OneSlot(c, s, p, flag, a, t);
      var words := SlotAt(c, s, w.page, w.t).words;
      assert flag ==> words == words[..w.done] && w.msg == w.msg[..w.done];
    }
  }

  lemma StoreInv(c: Setup, s: Queue, p: nat, flag: bool)
    requires Proper(c) && Inv(c, s) && p < c.k && s.ps[p].Storing? && (flag <==> s.ps[p].done >= c.W)
    ensures Inv(c, DoStore(c, s, p, flag))
  {
    hide Quot, Rem;
    var w, s' := s.ps[p], DoStore(c, s, p, flag);
    assert WriterFits(c, s, w) && WriterOk(c, s, p) && AddressOk(c, s, w.page);
    OneSlot(c, s, p, flag, w.page, w.t);
    assert Busy(s') == Busy(s);
    forall a, t: nat | 0 <= a < |s'.heap| ensures SlotOk(c, s', a, t) { StoreSlots(c, s, p, flag, a, t); }
    forall i | 0 <= i < c.k ensures WriterOk(c, s', i) { StoreWriters(c, s, p, flag, i); }
    hide SlotOk, WriterOk;
    forall a | 0 <= a < |s'.heap| ensures AddressOk(c, s', a) { assert AddressOk(c, s, a); }
    forall n | 0 <= n < |s.table| ensures EntryOk(c, s', n) { assert EntryOk(c, s, n); }
    PresentAfterStore(c, s, p, flag);
    StoreReader(c, s, p, flag);
  }

  lemma PresentAfterStore(c: Setup, s: Queue, p: nat, flag: bool)
    requires Proper(c) && Inv(c, s) && p < c.k && s.ps[p].Storing? && (flag <==> s.ps[p].done >= c.W)
    ensures forall t: nat :: Up(DoStore(c, s, p, flag), t) ==> Present(c, DoStore(c, s, p, flag), t)
  {
    var w, s' := s.ps[p], DoStore(c, s, p, flag);
    assert WriterFits(c, s, w) && WriterOk(c, s, p) && AddressOk(c, s, w.page);
    forall t: nat | Up(s', t) ensures Present(c, s', t) { assert t == w.t || Present(c, s, t); }
  }

  lemma StoreReader(c: Setup, s: Queue, p: nat, flag: bool)
    requires Proper(c) && Inv(c, s) && p < c.k && s.ps[p].Storing? && (flag <==> s.ps[p].done >= c.W)
    requires Fits(c, DoStore(c, s, p, flag))
    ensures ReaderOk(c, DoStore(c, s, p, flag)) && AnswersOk(DoStore(c, s, p, flag))
  {
    assert forall t: nat :: Up(s, t) ==> Up(DoStore(c, s, p, flag), t);
  }

  lemma ReturnInv(c: Setup, s: Queue, p: nat)
    requires Proper(c) && Inv(c, s) && Can(c, s, Return(p))
    ensures Inv(c, Make(c, s, Return(p)))
  {
    var s' := Make(c, s, Return(p));
    MakeFits(c, s, Return(p));
    assert forall t: nat :: Up(s', t) <==> Up(s, t);
    assert Busy(s) == Busy(s') + {p};
    PagesKept(c, s, s');
    forall i | 0 <= i < c.k ensures WriterOk(c, s', i) { if i != p { WriterKept(c, s, s', i); } }
  }

  /** Steps of the reader that do not look a page up. */
  lemma ReadInv(c: Setup, s: Queue, m: Move)
    requires Proper(c) && Inv(c, s) && Can(c, s, m) && (m.Get? || m.Test? || m.CopyWord? || m.Answer?)
    ensures Inv(c, Make(c, s, m))
  {
    var s' := Make(c, s, m);
    MakeFits(c, s, m);
    if s.reader.Testing? || s.reader.Copying? {
      assert SlotOk(c, s, s.reader.page, s.reader.pos);
    }
    if m.CopyWord? {
      var msg, n := s.log[s.reader.pos].msg, |s.reader.buf|;
      assert msg[..n + 1] == msg[..n] + [msg[n]];
    }
    assert m.Answer? ==> s.reader.buf == s.log[s.reader.pos].msg[..c.W] == s.log[s.reader.pos].msg;
    assert forall t: nat :: Up(s', t) <==> Up(s, t);
    assert Busy(s') == Busy(s);
    PagesKept(c, s, s');
    forall i | 0 <= i < c.k ensures WriterOk(c, s', i) { WriterKept(c, s, s', i); }
  }

  /** The test of `get` succeeds iff the ticket at that very position has been flagged. */
  lemma TestIsExact(c: Setup, s: Queue)
    requires Proper(c) && Inv(c, s) && s.reader.Testing?
    ensures DoRead(c, s).reader.Copying? <==> Up(s, s.reader.pos)
  {
    assert SlotOk(c, s, s.reader.page, s.reader.pos);
  }

  lemma FindInv(c: Setup, s: Queue)
    requires Proper(c) && Inv(c, s) && Can(c, s, Find) && !Make(c, s, Find).fault
    ensures Inv(c, Make(c, s, Find))
  {
    var n := Number(c, s.reader.pos);
    GetPageInv(c, s, n);
    var (q, x) := GetPage(c, s, n);
    PointReader(c, q, Testing(s.reader.pos, x.value));
  }

  lemma PointReader(c: Setup, s: Queue, r: Reader)
    requires Proper(c) && Inv(c, s) && Fits(c, s.(reader := r)) && ReaderOk(c, s.(reader := r))
    ensures Inv(c, s.(reader := r))
  {
    var s' := s.(reader := r);
    assert forall t: nat :: Up(s', t) <==> Up(s, t);
    assert Busy(s') == Busy(s);
    PagesKept(c, s, s');
    forall i | 0 <= i < c.k ensures WriterOk(c, s', i) { WriterKept(c, s, s', i); }
  }

  /** Every step that does not run off the page table keeps the invariant. */
  lemma MakeInv(c: Setup, s: Queue, m: Move)
    requires Proper(c) && Inv(c, s) && Can(c, s, m) && !Make(c, s, m).fault
    ensures Inv(c, Make(c, s, m))
  {
    match m
    case Draw(p, msg) => DrawInv(c, s, p, msg);
    case Lookup(p) => LookupInv(c, s, p);
    case StoreWord(p) => StoreInv(c, s, p, false);
    case Flag(p) => StoreInv(c, s, p, true);
    case Return(p) => ReturnInv(c, s, p);
    case Find => FindInv(c, s);
    case _ => ReadInv(c, s, m);
  }

  // ---------------------------------------------------------------- what it means for callers

  /** A readable position stays readable, with the same message, whoever moves. */
  lemma StaysReadable(c: Setup, s: Queue, m: Move, pos: nat)
    requires Proper(c) && Inv(c, s) && Can(c, s, m) && Readable(s, pos)
    ensures var s' := Make(c, s, m); Readable(s', pos) && s'.log[pos] == s.log[pos]
  {
    hide Quot, Rem, PagesOk, ReaderOk, AnswersOk, Extend;
    var p := s.log[pos].p;
    assert WriterFits(c, s, s.ps[p]) && WriterOk(c, s, p);
  }

  /** With no push under way, every position below `size()` is in the table and flagged,
      with its own ticket's message. */
  lemma QuietIsComplete(c: Setup, s: Queue, pos: nat)
    requires Proper(c) && Inv(c, s) && (forall p :: 0 <= p < c.k ==> s.ps[p].Free?) && pos < s.written
    ensures Present(c, s, pos)
    ensures SlotAt(c, s, s.table[Number(c, pos)].value, pos) == Slot(s.log[pos].msg, true)
  {
    assert Busy(s) == {};
    assert s.log[pos].p < c.k && Up(s, pos);
    assert Present(c, s, pos) && EntryOk(c, s, Number(c, pos));
    assert SlotOk(c, s, s.table[Number(c, pos)].value, pos);
  }
}
