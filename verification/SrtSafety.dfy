/** The invariant of the paged queue and its consequences for every run that stays in
    the ticket window: messages come out once, whole and in ticket order. */
module SrtSafety {
  import opened Arith
  import opened Messages
  import opened SrtProtocol

  predicate Holds(q: Producer, t: nat) {
    (q.Looking? || q.Writing?) && q.t == t
  }

  /** Ticket t has been drawn and its producer has not set the flag yet. */
  predicate InFlight(s: State, t: nat) {
    t < |s.log| && s.log[t].p < |s.ps| && Holds(s.ps[s.log[t].p], t)
  }

  predicate Filled(s: State, t: nat) {
    t < |s.log| && s.log[t].p < |s.ps| && !Holds(s.ps[s.log[t].p], t)
  }

  /** The last drawn ticket lies on one of the C pages that start at the consumer's. */
  ghost predicate Window(c: Config, s: State)
    requires Valid(c)
  {
    s.post == 0 || Pg(c, s.post - 1) < Pg(c, s.get) + c.C
  }

  /** Page number n is in memory under its own table entry. */
  ghost predicate Resident(c: Config, m: Memory, n: nat)
    requires Valid(c) && |m.table| == c.C
  {
    var x := m.table[Ent(c, n)];
    x.Some? && x.value in m.heap && m.heap[x.value].num == n
  }

  ghost predicate Gone(c: Config, s: State)
    requires Valid(c)
  {
    (s.con.Clearing? || s.con.Advancing?) && Off(c, s.get) == c.M - 1
  }

  // ---------------------------------------------------------------- the invariant

  ghost predicate PageOk(c: Config, s: State, a: nat)
    requires Valid(c) && Shaped(c, s) && a in s.mem.heap
  {
    var n := s.mem.heap[a].num;
    a < s.mem.next && Pg(c, s.get) <= n < Pg(c, s.get) + c.C && s.mem.table[Ent(c, n)] == Some(a)
  }

  ghost predicate EntryOk(c: Config, s: State, e: nat)
    requires Valid(c) && Shaped(c, s) && e < c.C
  {
    match s.mem.table[e]
    case None => true
    case Some(a) =>
      && a < s.mem.next
      && if a in s.mem.heap then Ent(c, s.mem.heap[a].num) == e
         else s.con.Clearing? && e == Ent(c, Pg(c, s.get))
  }

  /** In a page that is in memory, a flag is up exactly when that very ticket was filled. */
  ghost predicate SlotOk(c: Config, s: State, a: nat, t: nat)
    requires Valid(c) && Shaped(c, s) && a in s.mem.heap
  {
    Pg(c, t) == s.mem.heap[a].num ==>
      var slot := SlotOf(c, s.mem, a, t);
      && (slot.flag <==> Filled(s, t))
      && (Filled(s, t) ==> slot.words == s.log[t].msg)
  }

  function SlotOf(c: Config, m: Memory, a: nat, t: nat): Slot
    requires Valid(c) && MemShaped(c, m) && a in m.heap
  {
    assert PageShaped(c, m.heap[a]);
    QuotRem(t, c.M);
    m.heap[a].slots[Off(c, t)]
  }

  ghost predicate PresentOk(c: Config, s: State, t: nat)
    requires Valid(c) && Shaped(c, s)
  {
    Filled(s, t) && Pg(c, t) >= Pg(c, s.get) && !(Gone(c, s) && Pg(c, t) == Pg(c, s.get)) ==>
      Resident(c, s.mem, Pg(c, t))
  }

  ghost predicate LookOk(c: Config, m: Memory, who: nat, n: nat, at: Lookup)
    requires Valid(c) && |m.table| == c.C
  {
    match at
    case First => true
    case Lock => true
    case Recheck => m.owner == Some(who)
    case Install => m.owner == Some(who) && m.table[Ent(c, n)] == None
    case Unlock => m.owner == Some(who) && Resident(c, m, n)
    case Fetch => Resident(c, m, n)
  }

  ghost predicate ProducerOk(c: Config, s: State, p: nat)
    requires Valid(c) && Shaped(c, s) && p < |s.ps|
  {
    match s.ps[p]
    case Looking(msg, t, at) =>
      s.get <= t < s.post && s.log[t] == Entry(p, msg) && LookOk(c, s.mem, p, Pg(c, t), at)
    case Writing(msg, t, a, done) =>
      && s.get <= t < s.post && s.log[t] == Entry(p, msg) && done <= c.W
      && a in s.mem.heap && s.mem.heap[a].num == Pg(c, t)
      && |SlotOf(c, s.mem, a, t).words| == |msg| == c.W
      && SlotOf(c, s.mem, a, t).words[..done] == msg[..done]
    case _ => true
  }

  ghost predicate AtHead(c: Config, s: State, a: nat)
    requires Valid(c) && Shaped(c, s)
  {
    s.mem.table[Ent(c, Pg(c, s.get))] == Some(a) && a in s.mem.heap && s.mem.heap[a].num == Pg(c, s.get)
  }

  ghost predicate ConsumerOk(c: Config, s: State)
    requires Valid(c) && Shaped(c, s)
  {
    match s.con
    case Ready => true
    case Finding(at) => LookOk(c, s.mem, c.k, Pg(c, s.get), at)
    case Testing(a) => AtHead(c, s, a)
    case Copying(a, buf) => AtHead(c, s, a) && Filled(s, s.get) && |buf| <= c.W && buf == s.log[s.get].msg[..|buf|]
    case Deleting(a, buf) =>
      AtHead(c, s, a) && Filled(s, s.get) && buf == s.log[s.get].msg && Off(c, s.get) == c.M - 1
    case Clearing(buf) =>
      && Filled(s, s.get) && buf == s.log[s.get].msg && Off(c, s.get) == c.M - 1
      && s.mem.table[Ent(c, Pg(c, s.get))].Some? && s.mem.table[Ent(c, Pg(c, s.get))].value !in s.mem.heap
    case Advancing(buf) =>
      && Filled(s, s.get) && buf == s.log[s.get].msg
      && (Off(c, s.get) == c.M - 1 ==> s.mem.table[Ent(c, Pg(c, s.get))] == None)
  }

  /** The messages producer p drew tickets for, in order. */
  function Drawn(log: seq<Entry>, p: nat): seq<Msg> {
    if log == [] then []
    else
      var rest := Drawn(log[..|log| - 1], p);
      if log[|log| - 1].p == p then rest + [log[|log| - 1].msg] else rest
  }

  function Unreturned(q: Producer): seq<Msg> {
    if q.Looking? || q.Writing? then [q.msg] else []
  }

  ghost predicate HistoryOk(c: Config, s: State)
    requires Valid(c) && Shaped(c, s)
  {
    && |s.out| == s.get
    && (forall t :: 0 <= t < s.get ==> s.out[t] == s.log[t].msg)
    && (forall p :: 0 <= p < c.k ==> Drawn(s.log, p) == s.sent[p] + Unreturned(s.ps[p]))
  }

  ghost predicate MemOk(c: Config, s: State)
    requires Valid(c) && Shaped(c, s)
  {
    && (forall a :: a in s.mem.heap ==> PageOk(c, s, a))
    && (forall e :: 0 <= e < c.C ==> EntryOk(c, s, e))
    && (forall a, t: nat :: a in s.mem.heap ==> SlotOk(c, s, a, t))
    && (forall t: nat :: PresentOk(c, s, t))
  }

  ghost predicate Inv(c: Config, s: State)
    requires Valid(c)
  {
    && Shaped(c, s) && Loaded(c, s) && Window(c, s) && !s.fault
    && MemOk(c, s)
    && (forall p :: 0 <= p < c.k ==> ProducerOk(c, s, p))
    && ConsumerOk(c, s)
    && HistoryOk(c, s)
  }

  // ---------------------------------------------------------------- arithmetic of the window

  /** Tickets between the consumer's and the last drawn one lie on the C live pages. */
  lemma LivePage(c: Config, s: State, t: nat)
    requires Valid(c) && Shaped(c, s) && Window(c, s) && s.get <= t < s.post
    ensures Pg(c, s.get) <= Pg(c, t) < Pg(c, s.get) + c.C
  {
    QuotMono(s.get, t, c.M);
    QuotMono(t, s.post - 1, c.M);
  }

  /** Two live pages with the same table entry are the same page. */
  lemma OnePagePerEntry(c: Config, s: State, n: nat, n': nat)
    requires Valid(c) && Pg(c, s.get) <= n < Pg(c, s.get) + c.C && Pg(c, s.get) <= n' < Pg(c, s.get) + c.C
    requires Ent(c, n) == Ent(c, n')
    ensures n == n'
  {
    WindowUnique(Pg(c, s.get), n, n', c.C);
  }

  // ---------------------------------------------------------------- initial state

  lemma InitInv(c: Config)
    requires Valid(c)
    ensures Inv(c, Init(c))
  {
    var s := Init(c);
    assert Ent(c, 0) == 0;
    forall p | 0 <= p < c.k ensures Drawn(s.log, p) == s.sent[p] + Unreturned(s.ps[p]) {
    }
  }

  // ---------------------------------------------------------------- producer steps

  lemma SameHolder(s: State, p: nat, q: Producer)
    requires p < |s.ps|
    requires forall t :: Holds(q, t) <==> Holds(s.ps[p], t)
    ensures forall t :: Filled(At(s, p, q), t) <==> Filled(s, t)
  {
  }

  /** A step that leaves pages, table, log and finished tickets alone keeps the memory
      invariants. */
  lemma MemKept(c: Config, s: State, s': State)
    requires Valid(c) && Shaped(c, s) && Shaped(c, s') && MemOk(c, s)
    requires s'.mem.heap == s.mem.heap && s'.mem.table == s.mem.table && s'.mem.next == s.mem.next
    requires s'.get == s.get && s.log <= s'.log
    requires forall t :: Filled(s', t) <==> Filled(s, t)
    requires (Gone(c, s) ==> Gone(c, s')) && (s.con.Clearing? ==> s'.con.Clearing?)
    ensures MemOk(c, s')
  {
    hide Quot, Rem, Filled;
    forall a, t: nat | a in s.mem.heap ensures SlotOk(c, s', a, t) {
      assert SlotOk(c, s, a, t);
      FilledIsDrawn(s, t);
    }
    forall t: nat ensures PresentOk(c, s', t) { assert PresentOk(c, s, t); }
    forall a | a in s.mem.heap ensures PageOk(c, s', a) { assert PageOk(c, s, a); }
    forall e | 0 <= e < c.C ensures EntryOk(c, s', e) { assert EntryOk(c, s, e); }
  }

  lemma FilledIsDrawn(s: State, t: nat)
    ensures Filled(s, t) ==> t < |s.log|
  {
  }

  lemma ProducerKept(c: Config, s: State, s': State, i: nat)
    requires Valid(c) && Shaped(c, s) && Shaped(c, s') && i < c.k && ProducerOk(c, s, i)
    requires s'.mem == s.mem && s'.get == s.get && s.log <= s'.log && s'.ps[i] == s.ps[i]
    ensures ProducerOk(c, s', i)
  {
    hide Quot, Rem;
  }

  lemma LocalStep(c: Config, s: State, p: nat, q: Producer)
    requires Valid(c) && Inv(c, s) && p < |s.ps| && Carries(c, q)
    requires !q.Looking? && !q.Writing? && !s.ps[p].Looking? && !s.ps[p].Writing?
    ensures Inv(c, At(s, p, q))
  {
    var s' := At(s, p, q);
    SameHolder(s, p, q);
    MemKept(c, s, s');
    forall i | 0 <= i < c.k && i != p ensures ProducerOk(c, s', i) { assert ProducerOk(c, s, i); ProducerKept(c, s, s', i); }
  }

  lemma DrawStep(c: Config, s: State, p: nat)
    requires Valid(c) && Inv(c, s) && p < |s.ps| && s.ps[p].Admitted?
    requires Window(c, DoDraw(s, p))
    ensures Inv(c, DoDraw(s, p))
  {
    var s' := DoDraw(s, p);
    var msg := s.ps[p].msg;
    assert Carries(c, s.ps[p]);
    assert forall t: nat :: Filled(s', t) <==> Filled(s, t);
    MemKept(c, s, s');
    forall i | 0 <= i < c.k && i != p ensures ProducerOk(c, s', i) { assert ProducerOk(c, s, i); ProducerKept(c, s, s', i); }
    assert s'.log[..|s'.log| - 1] == s.log;
  }

  /** What one step of the page look-up by `who` does to the memory invariants, and to
      every other thread's view.  Only page n may appear, and only when no ticket of
      page n has been filled. */
  lemma LookMemory(c: Config, s: State, s': State, who: nat, n: nat, at: Lookup)
    requires Valid(c) && Inv(c, s) && LookEnabled(s.mem, at) && LookOk(c, s.mem, who, n, at)
    requires Pg(c, s.get) <= n < Pg(c, s.get) + c.C && !(Gone(c, s) && n == Pg(c, s.get))
    requires Shaped(c, s') && s'.mem == Look(c, s.mem, who, n, Ent(c, n), at).0
    requires s'.get == s.get && s'.log == s.log && |s'.ps| == |s.ps|
    requires forall t :: Filled(s', t) <==> Filled(s, t)
    requires Gone(c, s') == Gone(c, s) && s'.con.Clearing? == s.con.Clearing?
    ensures MemOk(c, s')
    ensures forall a :: a in s.mem.heap ==> a in s'.mem.heap && s'.mem.heap[a] == s.mem.heap[a]
    ensures LookOk(c, s'.mem, who, n, Look(c, s.mem, who, n, Ent(c, n), at).1)
  {
    var e := Ent(c, n);
    if at == Install {
      assert EntryOk(c, s, e);
      InstallMemory(c, s, s', who, n);
    } else {
      MemKept(c, s, s');
      NonNullIsResident(c, s, n);
    }
  }

  /** A non-null table entry of a live page is that page, unless the consumer has just
      deleted it. */
  lemma NonNullIsResident(c: Config, s: State, n: nat)
    requires Valid(c) && Shaped(c, s) && MemOk(c, s) && ConsumerOk(c, s)
    requires Pg(c, s.get) <= n < Pg(c, s.get) + c.C && !(Gone(c, s) && n == Pg(c, s.get))
    ensures s.mem.table[Ent(c, n)].Some? ==> Resident(c, s.mem, n)
  {
    var e := Ent(c, n);
    assert EntryOk(c, s, e);
    if s.mem.table[e].Some? {
      var a := s.mem.table[e].value;
      if a in s.mem.heap {
        assert PageOk(c, s, a);
        OnePagePerEntry(c, s, n, s.mem.heap[a].num);
      } else {
        OnePagePerEntry(c, s, n, Pg(c, s.get));
      }
    }
  }

  lemma InstallMemory(c: Config, s: State, s': State, who: nat, n: nat)
    requires Valid(c) && Inv(c, s) && s.mem.table[Ent(c, n)] == None
    requires Pg(c, s.get) <= n < Pg(c, s.get) + c.C && !(Gone(c, s) && n == Pg(c, s.get))
    requires Shaped(c, s') && s'.mem == Look(c, s.mem, who, n, Ent(c, n), Install).0
    requires s'.get == s.get && s'.log == s.log && |s'.ps| == |s.ps|
    requires forall t :: Filled(s', t) <==> Filled(s, t)
    requires Gone(c, s') == Gone(c, s) && s'.con.Clearing? == s.con.Clearing?
    ensures MemOk(c, s') && s.mem.next !in s.mem.heap
  {
    var added := s.mem.next;
    OnlyNewAddress(c, s);
    forall a, t: nat | a in s'.mem.heap ensures SlotOk(c, s', a, t) {
      if a == added {
        assert PresentOk(c, s, t);
        QuotRem(t, c.M);
      } else {
        assert SlotOk(c, s, a, t);
      }
    }
    forall t: nat ensures PresentOk(c, s', t) { assert PresentOk(c, s, t); }
    forall a | a in s'.mem.heap ensures PageOk(c, s', a) {
      if a != added {
        assert PageOk(c, s, a);
      }
    }
    forall e | 0 <= e < c.C ensures EntryOk(c, s', e) { assert EntryOk(c, s, e); }
  }

  /** A look-up step never disturbs another thread's look-up. */
  lemma OthersLook(c: Config, m: Memory, who: nat, n: nat, at: Lookup, who': nat, n': nat, at': Lookup)
    requires Valid(c) && MemShaped(c, m) && who != who' && LookEnabled(m, at)
    requires LookOk(c, m, who, n, at) && LookOk(c, m, who', n', at')
    requires m.next !in m.heap || at != Install
    ensures LookOk(c, Look(c, m, who, n, Ent(c, n), at).0, who', n', at')
  {
  }

  /** A ticket still in flight is never on a page the consumer is done with. */
  lemma NotGone(c: Config, s: State, t: nat)
    requires Valid(c) && Shaped(c, s) && ConsumerOk(c, s) && s.get <= t < s.post && InFlight(s, t)
    ensures !(Gone(c, s) && Pg(c, t) == Pg(c, s.get))
    ensures s.con.Copying? || s.con.Deleting? || s.con.Clearing? || s.con.Advancing? ==> t != s.get
    ensures s.con.Deleting? ==> Pg(c, t) != Pg(c, s.get)
  {
    if Off(c, s.get) == c.M - 1 && Pg(c, t) == Pg(c, s.get) {
      BlockEnd(s.get, t, c.M);
    }
  }

  lemma ConsumerKept(c: Config, s: State, s': State)
    requires Valid(c) && Shaped(c, s) && Shaped(c, s') && ConsumerOk(c, s)
    requires s'.get == s.get && s'.log == s.log && s'.con == s.con
    requires forall t :: Filled(s, t) ==> Filled(s', t)
    requires forall a :: a in s.mem.heap ==> a in s'.mem.heap && s'.mem.heap[a].num == s.mem.heap[a].num
    requires s.con.Finding? ==> LookOk(c, s'.mem, c.k, Pg(c, s.get), s.con.at)
    requires s.con.Clearing? ==> forall a :: a in s'.mem.heap ==> a in s.mem.heap || a == s.mem.next
    requires var e := Ent(c, Pg(c, s.get)); s.mem.table[e].Some? ==> s'.mem.table[e] == s.mem.table[e] && s.mem.table[e].value < s.mem.next
    requires Gone(c, s) && s.con.Advancing? ==> s'.mem.table[Ent(c, Pg(c, s.get))] == None
    ensures ConsumerOk(c, s')
  {
  }

  lemma PLookStep(c: Config, s: State, p: nat)
    requires Valid(c) && Inv(c, s) && p < |s.ps| && s.ps[p].Looking? && LookEnabled(s.mem, s.ps[p].at)
    ensures Inv(c, DoPLook(c, s, p))
  {
    hide Quot, Rem, Drawn;
    var q := s.ps[p];
    var s' := DoPLook(c, s, p);
    assert Enabled(c, s, PLook(p)) && s' == Do(c, s, PLook(p));
    StepKeepsShape(c, s, PLook(p));
    assert ProducerOk(c, s, p);
    LivePage(c, s, q.t);
    NotGone(c, s, q.t);
    SameHolder(s, p, s'.ps[p]);
    LookMemory(c, s, s', p, Pg(c, q.t), q.at);
    hide MemOk;
    PLookOthers(c, s, p);
  }

  lemma PLookOther(c: Config, s: State, p: nat, i: nat)
    requires Valid(c) && Inv(c, s) && p < |s.ps| && s.ps[p].Looking? && LookEnabled(s.mem, s.ps[p].at) && i < c.k
    requires var q := s.ps[p]; LookOk(c, DoPLook(c, s, p).mem, p, Pg(c, q.t), DoPLook(c, s, p).ps[p].at)
    requires Shaped(c, DoPLook(c, s, p))
    ensures ProducerOk(c, DoPLook(c, s, p), i)
  {
    hide Quot, Rem, Drawn, PageOk, EntryOk, PresentOk, SlotOk;
    var q := s.ps[p];
    assert ProducerOk(c, s, p) && ProducerOk(c, s, i);
    OnlyNewAddress(c, s);
    if i != p && s.ps[i].Looking? {
      OthersLook(c, s.mem, p, Pg(c, q.t), q.at, i, Pg(c, s.ps[i].t), s.ps[i].at);
    }
  }

  lemma PLookOthers(c: Config, s: State, p: nat)
    requires Valid(c) && Inv(c, s) && p < |s.ps| && s.ps[p].Looking? && LookEnabled(s.mem, s.ps[p].at)
    requires var q := s.ps[p]; LookOk(c, DoPLook(c, s, p).mem, p, Pg(c, q.t), DoPLook(c, s, p).ps[p].at)
    requires Shaped(c, DoPLook(c, s, p)) && MemOk(c, DoPLook(c, s, p))
    requires forall t :: Filled(DoPLook(c, s, p), t) <==> Filled(s, t)
    ensures forall i :: 0 <= i < c.k ==> ProducerOk(c, DoPLook(c, s, p), i)
    ensures ConsumerOk(c, DoPLook(c, s, p))
  {
    hide Quot, Rem, Drawn;
    var q := s.ps[p];
    var n := Pg(c, q.t);
    var s' := DoPLook(c, s, p);
    assert ProducerOk(c, s, p);
    LivePage(c, s, q.t);
    NotGone(c, s, q.t);
    OnlyNewAddress(c, s);
    forall i | 0 <= i < c.k ensures ProducerOk(c, s', i) {
      PLookOther(c, s, p, i);
    }
    hide ProducerOk, PresentOk, SlotOk;
    if s.con.Finding? {
      OthersLook(c, s.mem, p, n, q.at, c.k, Pg(c, s.get), s.con.at);
    }
    assert EntryOk(c, s, Ent(c, Pg(c, s.get)));
    if Ent(c, n) == Ent(c, Pg(c, s.get)) {
      OnePagePerEntry(c, s, n, Pg(c, s.get));
    }
    ConsumerKept(c, s, s');
  }

  lemma OnlyNewAddress(c: Config, s: State)
    requires Valid(c) && Shaped(c, s) && MemOk(c, s)
    ensures s.mem.next !in s.mem.heap
  {
    forall a | a in s.mem.heap ensures a < s.mem.next { assert PageOk(c, s, a); }
  }

  lemma PFetchStep(c: Config, s: State, p: nat)
    requires Valid(c) && Inv(c, s) && p < |s.ps| && s.ps[p].Looking? && s.ps[p].at == Fetch
    ensures Inv(c, DoPFetch(c, s, p))
  {
    var q := s.ps[p];
    var s' := DoPFetch(c, s, p);
    assert ProducerOk(c, s, p);
    SameHolder(s, p, s'.ps[p]);
    assert Carries(c, q);
    MemKept(c, s, s');
    forall i | 0 <= i < c.k && i != p ensures ProducerOk(c, s', i) { assert ProducerOk(c, s, i); ProducerKept(c, s, s', i); }
    var a := s.mem.table[Ent(c, Pg(c, q.t))].value;
    assert PageShaped(c, s.mem.heap[a]);
    QuotRem(q.t, c.M);
  }

  /** Rewriting the slot of one ticket leaves every other ticket's slot alone. */
  lemma PokeOneSlot(c: Config, m: Memory, a: nat, t: nat, slot: Slot, a': nat, t': nat)
    requires Valid(c) && MemShaped(c, m) && a in m.heap && a' in m.heap && |slot.words| == c.W
    requires m.heap[a].num == Pg(c, t) && m.heap[a'].num == Pg(c, t')
    ensures Off(c, t) < c.M && PageShaped(c, m.heap[a])
    ensures var m' := Poke(m, a, Off(c, t), slot);
      && MemShaped(c, m')
      && SlotOf(c, m', a', t') == if a == a' && t == t' then slot else SlotOf(c, m, a', t')
  {
    QuotRem(t, c.M);
    QuotRem(t', c.M);
    assert PageShaped(c, m.heap[a]) && PageShaped(c, m.heap[a']);
    PokeKeepsShape(c, m, a, Off(c, t), slot);
    if a == a' && t != t' && Off(c, t) == Off(c, t') {
      SameCell(t, t', c.M);
    }
  }

  lemma OneAddressPerPage(c: Config, s: State, a: nat, b: nat)
    requires Valid(c) && Shaped(c, s) && MemOk(c, s) && a in s.mem.heap && b in s.mem.heap
    ensures s.mem.heap[a].num == s.mem.heap[b].num ==> a == b
  {
    assert PageOk(c, s, a) && PageOk(c, s, b);
  }

  /** The memory invariants after ticket t's slot was rewritten by its own producer. */
  lemma PokeMemory(c: Config, s: State, s': State, a: nat, t: nat, slot: Slot)
    requires Valid(c) && Inv(c, s) && a in s.mem.heap && s.mem.heap[a].num == Pg(c, t) && |slot.words| == c.W
    requires t < s.post && InFlight(s, t) && Off(c, t) < |s.mem.heap[a].slots|
    requires Shaped(c, s') && s'.mem == Poke(s.mem, a, Off(c, t), slot)
    requires s'.get == s.get && s'.log == s.log && s'.con == s.con && |s'.ps| == |s.ps|
    requires forall t' :: t' != t ==> (Filled(s', t') <==> Filled(s, t'))
    requires slot.flag <==> Filled(s', t)
    requires Filled(s', t) ==> slot.words == s.log[t].msg
    ensures MemOk(c, s')
  {
    forall b, t': nat | b in s'.mem.heap ensures SlotOk(c, s', b, t') {
      assert SlotOk(c, s, b, t');
      if Pg(c, t') == s.mem.heap[b].num {
        PokeOneSlot(c, s.mem, a, t, slot, b, t');
        OneAddressPerPage(c, s, a, b);
      }
    }
    forall t': nat ensures PresentOk(c, s', t') {
      assert PresentOk(c, s, t');
      assert PageOk(c, s, a);
    }
    forall b | b in s'.mem.heap ensures PageOk(c, s', b) { assert PageOk(c, s, b); }
    forall e | 0 <= e < c.C ensures EntryOk(c, s', e) { assert EntryOk(c, s, e); }
  }

  /** Every other producer's view survives that rewriting. */
  lemma PokeOthers(c: Config, s: State, s': State, p: nat, a: nat, t: nat, slot: Slot, i: nat)
    requires Valid(c) && Inv(c, s) && a in s.mem.heap && s.mem.heap[a].num == Pg(c, t) && |slot.words| == c.W
    requires t < s.post && s.log[t].p == p && Off(c, t) < |s.mem.heap[a].slots|
    requires Shaped(c, s') && s'.mem == Poke(s.mem, a, Off(c, t), slot)
    requires s'.get == s.get && s'.log == s.log && s'.post == s.post
    requires i < c.k && i != p && s'.ps[i] == s.ps[i]
    ensures ProducerOk(c, s', i)
  {
    assert ProducerOk(c, s, i);
    if s.ps[i].Writing? {
      PokeOneSlot(c, s.mem, a, t, slot, s.ps[i].page, s.ps[i].t);
    }
  }

  lemma WriteWordStep(c: Config, s: State, p: nat)
    requires Valid(c) && Inv(c, s) && p < |s.ps| && s.ps[p].Writing? && s.ps[p].done < c.W
    ensures Carries(c, s.ps[p]) && Inv(c, DoWriteWord(c, s, p))
  {
    hide Quot, Rem, Drawn, PageOk, EntryOk, PresentOk;
    var q := s.ps[p];
    assert Carries(c, q) && ProducerOk(c, s, p);
    WriteKeepsShape(c, s, p);
    var s' := DoWriteWord(c, s, p);
    SameHolder(s, p, s'.ps[p]);
    var before := SlotOf(c, s.mem, q.page, q.t);
    var slot := before.(words := before.words[q.done := q.msg[q.done]]);
    PokeOneSlot(c, s.mem, q.page, q.t, slot, q.page, q.t);
    assert SlotOk(c, s, q.page, q.t);
    PokeMemory(c, s, s', q.page, q.t, slot);
    hide MemOk, SlotOk;
    WroteWord(c, s, p);
    forall i | 0 <= i < c.k && i != p ensures ProducerOk(c, s', i) {
      PokeOthers(c, s, s', p, q.page, q.t, slot, i);
    }
    ConsumerPoked(c, s, s');
  }

  /** The writer's own view: one more word is in place. */
  lemma WroteWord(c: Config, s: State, p: nat)
    requires Valid(c) && Inv(c, s) && p < |s.ps| && s.ps[p].Writing? && s.ps[p].done < c.W
    requires Shaped(c, DoWriteWord(c, s, p))
    ensures ProducerOk(c, DoWriteWord(c, s, p), p)
  {
    hide Drawn, MemOk, ConsumerOk;
    var q := s.ps[p];
    assert Carries(c, q) && ProducerOk(c, s, p);
    var before := SlotOf(c, s.mem, q.page, q.t);
    var slot := before.(words := before.words[q.done := q.msg[q.done]]);
    PokeOneSlot(c, s.mem, q.page, q.t, slot, q.page, q.t);
    assert slot.words[..q.done + 1] == before.words[..q.done] + [q.msg[q.done]];
    assert q.msg[..q.done + 1] == q.msg[..q.done] + [q.msg[q.done]];
  }

  lemma ConsumerPoked(c: Config, s: State, s': State)
    requires Valid(c) && Inv(c, s) && Shaped(c, s')
    requires s'.get == s.get && s'.log == s.log && s'.con == s.con
    requires s'.mem.table == s.mem.table && s'.mem.owner == s.mem.owner && s'.mem.heap.Keys == s.mem.heap.Keys
    requires forall a :: a in s.mem.heap ==> s'.mem.heap[a].num == s.mem.heap[a].num
    requires forall t :: Filled(s, t) ==> Filled(s', t)
    ensures ConsumerOk(c, s')
  {
  }

  lemma SetFlagStep(c: Config, s: State, p: nat)
    requires Valid(c) && Inv(c, s) && p < |s.ps| && s.ps[p].Writing? && s.ps[p].done >= c.W
    ensures Inv(c, DoSetFlag(c, s, p))
  {
    hide Quot, Rem, PageOk, EntryOk, PresentOk;
    var q := s.ps[p];
    assert Carries(c, q) && ProducerOk(c, s, p);
    WriteKeepsShape(c, s, p);
    var s' := DoSetFlag(c, s, p);
    var slot := SlotOf(c, s.mem, q.page, q.t).(flag := true);
    assert slot.words == slot.words[..q.done] && q.msg == q.msg[..q.done];
    PokeOneSlot(c, s.mem, q.page, q.t, slot, q.page, q.t);
    PokeMemory(c, s, s', q.page, q.t, slot);
    hide MemOk, SlotOk;
    forall i | 0 <= i < c.k ensures ProducerOk(c, s', i) {
      if i != p {
        PokeOthers(c, s, s', p, q.page, q.t, slot, i);
      }
    }
    ConsumerPoked(c, s, s');
  }

  // ---------------------------------------------------------------- consumer steps

  /** Consumer steps that only move its program counter. */
  lemma PointerStep(c: Config, s: State, con: Consumer)
    requires Valid(c) && Inv(c, s) && (con.Ready? || s.get < s.post)
    requires !s.con.Clearing? && !con.Clearing? && !s.con.Advancing?
    requires con.Advancing? ==> Off(c, s.get) != c.M - 1
    requires ConsumerOk(c, s.(con := con))
    ensures Inv(c, s.(con := con))
  {
    var s' := s.(con := con);
    assert forall t :: Filled(s', t) <==> Filled(s, t);
    MemKept(c, s, s');
    forall i | 0 <= i < c.k ensures ProducerOk(c, s', i) { assert ProducerOk(c, s, i); ProducerKept(c, s, s', i); }
  }

  lemma CLookStep(c: Config, s: State)
    requires Valid(c) && Inv(c, s) && s.con.Finding? && LookEnabled(s.mem, s.con.at)
    ensures Inv(c, DoCLook(c, s))
  {
    hide Quot, Rem, Drawn;
    var n := Pg(c, s.get);
    var s' := DoCLook(c, s);
    assert Enabled(c, s, CLook) && s' == Do(c, s, CLook);
    StepKeepsShape(c, s, CLook);
    OnlyNewAddress(c, s);
    LookMemory(c, s, s', c.k, n, s.con.at);
    hide MemOk, PageOk, EntryOk, PresentOk, SlotOk;
    forall i | 0 <= i < c.k ensures ProducerOk(c, s', i) {
      assert ProducerOk(c, s, i);
      if s.ps[i].Looking? {
        OthersLook(c, s.mem, c.k, n, s.con.at, i, Pg(c, s.ps[i].t), s.ps[i].at);
      }
    }
  }

  lemma TestStep(c: Config, s: State)
    requires Valid(c) && Inv(c, s) && s.con.Testing?
    ensures Inv(c, DoTest(c, s))
  {
    assert SlotOk(c, s, s.con.page, s.get);
    assert PageShaped(c, s.mem.heap[s.con.page]);
    QuotRem(s.get, c.M);
    PointerStep(c, s, DoTest(c, s).con);
  }

  lemma CopyWordStep(c: Config, s: State)
    requires Valid(c) && Inv(c, s) && s.con.Copying? && |s.con.buf| < c.W
    ensures Inv(c, DoCopyWord(c, s))
  {
    assert SlotOk(c, s, s.con.page, s.get);
    assert PageShaped(c, s.mem.heap[s.con.page]);
    QuotRem(s.get, c.M);
    var msg := s.log[s.get].msg;
    var n := |s.con.buf|;
    assert msg[..n + 1] == msg[..n] + [msg[n]];
    PointerStep(c, s, DoCopyWord(c, s).con);
  }

  lemma CopiedStep(c: Config, s: State)
    requires Valid(c) && Inv(c, s) && s.con.Copying? && |s.con.buf| >= c.W
    ensures Inv(c, DoCopied(c, s))
  {
    assert s.log[s.get].msg[..c.W] == s.log[s.get].msg;
    PointerStep(c, s, DoCopied(c, s).con);
  }

  lemma DeleteStep(c: Config, s: State)
    requires Valid(c) && Inv(c, s) && s.con.Deleting?
    ensures Inv(c, DoDelete(s))
  {
    hide Quot, Rem, Drawn;
    var s' := DoDelete(s);
    var a := s.con.page;
    assert forall t :: Filled(s', t) <==> Filled(s, t);
    assert forall b :: b in s'.mem.heap ==> b in s.mem.heap && PageShaped(c, s.mem.heap[b]);
    forall b, t: nat | b in s'.mem.heap ensures SlotOk(c, s', b, t) { assert SlotOk(c, s, b, t); }
    forall t: nat ensures PresentOk(c, s', t) {
      assert PresentOk(c, s, t);
      if Resident(c, s.mem, Pg(c, t)) && s.mem.table[Ent(c, Pg(c, t))] == Some(a) {
        assert Pg(c, t) == Pg(c, s.get);
      }
    }
    forall b | b in s'.mem.heap ensures PageOk(c, s', b) { assert PageOk(c, s, b); }
    forall e | 0 <= e < c.C ensures EntryOk(c, s', e) { assert EntryOk(c, s, e); }
    forall i | 0 <= i < c.k ensures ProducerOk(c, s', i) {
      assert ProducerOk(c, s, i);
      if s.ps[i].Looking? || s.ps[i].Writing? {
        NotGone(c, s, s.ps[i].t);
      }
    }
  }

  lemma ClearStep(c: Config, s: State)
    requires Valid(c) && Inv(c, s) && s.con.Clearing?
    ensures Inv(c, DoClear(c, s))
  {
    hide Quot, Rem, Drawn;
    var s' := DoClear(c, s);
    var n := Pg(c, s.get);
    assert forall t :: Filled(s', t) <==> Filled(s, t);
    forall b, t: nat | b in s'.mem.heap ensures SlotOk(c, s', b, t) { assert SlotOk(c, s, b, t); }
    forall t: nat ensures PresentOk(c, s', t) { assert PresentOk(c, s, t); }
    forall b | b in s'.mem.heap ensures PageOk(c, s', b) { assert PageOk(c, s, b); }
    forall e | 0 <= e < c.C ensures EntryOk(c, s', e) { assert EntryOk(c, s, e); }
    forall i | 0 <= i < c.k ensures ProducerOk(c, s', i) {
      assert ProducerOk(c, s, i);
      if s.ps[i].Looking? || s.ps[i].Writing? {
        NotGone(c, s, s.ps[i].t);
        LivePage(c, s, s.ps[i].t);
      }
    }
  }

  lemma AdvanceStep(c: Config, s: State)
    requires Valid(c) && Inv(c, s) && s.con.Advancing?
    ensures Inv(c, DoAdvance(s))
  {
    hide Quot, Rem, Drawn;
    var s' := DoAdvance(s);
    assert forall t :: Filled(s', t) <==> Filled(s, t);
    QuotSucc(s.get, c.M);
    forall b, t: nat | b in s'.mem.heap ensures SlotOk(c, s', b, t) { assert SlotOk(c, s, b, t); }
    forall t: nat ensures PresentOk(c, s', t) { assert PresentOk(c, s, t); }
    forall b | b in s'.mem.heap ensures PageOk(c, s', b) {
      assert PageOk(c, s, b);
    }
    forall e | 0 <= e < c.C ensures EntryOk(c, s', e) { assert EntryOk(c, s, e); }
    forall i | 0 <= i < c.k ensures ProducerOk(c, s', i) {
      assert ProducerOk(c, s, i);
      if s.ps[i].Looking? || s.ps[i].Writing? {
        NotGone(c, s, s.ps[i].t);
      }
    }
    QuotMono(s.get, s'.get, c.M);
  }

  // ---------------------------------------------------------------- every step

  lemma StepInv(c: Config, s: State, a: Act)
    requires Valid(c) && Inv(c, s) && Enabled(c, s, a) && Window(c, Do(c, s, a))
    ensures Inv(c, Do(c, s, a))
  {
    hide Quot, Rem, Drawn, MemOk, ProducerOk, HistoryOk, PageShaped;
    match a
    case ReadPost(p, msg) => LocalStep(c, s, p, SawPost(msg, s.post));
    case ReadGet(p, msg) => LocalStep(c, s, p, SawGet(msg, s.get));
    case Compare(p) =>
      assert Carries(c, s.ps[p]);
      LocalStep(c, s, p, DoCompare(c, s, p).ps[p]);
    case Draw(p) => DrawStep(c, s, p);
    case PLook(p) => PLookStep(c, s, p);
    case PFetch(p) => PFetchStep(c, s, p);
    case WriteWord(p) => WriteWordStep(c, s, p);
    case SetFlag(p) => SetFlagStep(c, s, p);
    case Begin => PointerStep(c, s, DoBegin(s).con);
    case CLook => CLookStep(c, s);
    case CFetch => PointerStep(c, s, DoCFetch(c, s).con);
    case Test => TestStep(c, s);
    case CopyWord => CopyWordStep(c, s);
    case Copied => CopiedStep(c, s);
    case Delete => DeleteStep(c, s);
    case Clear => ClearStep(c, s);
    case Advance => AdvanceStep(c, s);
  }

  lemma {:induction false} WindowRun(c: Config, run: seq<State>)
    requires Valid(c) && IsRun(c, run) && forall i :: 0 <= i < |run| ==> Window(c, run[i])
    ensures Inv(c, run[|run| - 1])
    decreases |run|
  {
    hide Inv, Window, DoPLook, DoPFetch, DoWriteWord, DoSetFlag, DoCLook, DoCFetch, DoTest, DoCopyWord, DoDelete, DoClear;
    var n := |run| - 1;
    if n == 0 {
      InitInv(c);
    } else {
      ShorterRun(c, run);
      WindowRun(c, run[..n]);
      assert StepAt(c, run, n - 1);
      var a :| Enabled(c, run[n - 1], a) && run[n] == Do(c, run[n - 1], a);
      StepInv(c, run[n - 1], a);
    }
  }

  // ---------------------------------------------------------------- what the invariant means

  /** Ticket t's whole message is in memory, marked ready, where a pop will look for it. */
  ghost predicate Stored(c: Config, s: State, t: nat)
    requires Valid(c) && Shaped(c, s) && t < s.post
  {
    && Resident(c, s.mem, Pg(c, t))
    && SlotOf(c, s.mem, s.mem.table[Ent(c, Pg(c, t))].value, t) == Slot(s.log[t].msg, true)
  }

  /** The consumer has already copied the message of the ticket it is about to leave. */
  predicate Taken(s: State, t: nat) {
    t == s.get && (s.con.Clearing? || s.con.Advancing?)
  }

  /** Every accepted message that has not been taken is stored. */
  ghost predicate NothingLost(c: Config, s: State)
    requires Valid(c) && Shaped(c, s)
  {
    forall t :: s.get <= t < s.post && !InFlight(s, t) && !Taken(s, t) ==> Stored(c, s, t)
  }

  /** Popped messages are the messages of tickets 0, 1, ... get-1, word for word; what has
      been popped from producer p is a prefix of what p was told was accepted, in p's order. */
  ghost predicate Fifo(c: Config, s: State)
    requires Valid(c) && Shaped(c, s)
  {
    && |s.out| == s.get
    && (forall t :: 0 <= t < s.get ==> s.out[t] == s.log[t].msg)
    && (forall p :: 0 <= p < c.k ==> Drawn(s.log[..s.get], p) <= s.sent[p])
  }

  lemma {:induction false} DrawnPrefix(log: seq<Entry>, n: nat, p: nat)
    requires n <= |log|
    ensures Drawn(log[..n], p) <= Drawn(log, p)
    ensures (exists t :: n <= t < |log| && log[t].p == p) ==> |Drawn(log[..n], p)| < |Drawn(log, p)|
    decreases |log|
  {
    if n == |log| {
      assert log[..n] == log;
    } else {
      var rest := log[..|log| - 1];
      DrawnPrefix(rest, n, p);
      assert rest[..n] == log[..n];
      assert forall t :: n <= t < |rest| ==> rest[t] == log[t];
    }
  }

  lemma InvIsSafe(c: Config, s: State)
    requires Valid(c) && Inv(c, s)
    ensures Fifo(c, s) && NothingLost(c, s) && !s.fault
  {
    forall p | 0 <= p < c.k ensures Drawn(s.log[..s.get], p) <= s.sent[p] {
      DrawnPrefix(s.log, s.get, p);
      assert ProducerOk(c, s, p);
    }
    forall t | s.get <= t < s.post && !InFlight(s, t) && !Taken(s, t) ensures Stored(c, s, t) {
      assert PresentOk(c, s, t);
      QuotMono(s.get, t, c.M);
      if Pg(c, t) == Pg(c, s.get) && Off(c, s.get) == c.M - 1 {
        BlockEnd(s.get, t, c.M);
      }
      assert SlotOk(c, s, s.mem.table[Ent(c, Pg(c, t))].value, t);
    }
  }

  /** The flag a pop reads is never left over from an earlier lap of the table: it is up
      iff the very ticket the consumer waits for has been filled. */
  lemma PopSeesItsOwnTicket(c: Config, s: State)
    requires Valid(c) && Inv(c, s) && s.con.Testing?
    ensures DoTest(c, s).con.Copying? <==> !InFlight(s, s.get)
  {
    assert SlotOk(c, s, s.con.page, s.get);
    TestStep(c, s);
  }
}
