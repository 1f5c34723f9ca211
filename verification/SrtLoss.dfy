/** Three producers are too many, whatever the page size and the table size: a run in
    which a push reports success and its message is gone.  Together with
    `SrtAdmission.TwoProducersAreSafe` this settles when the queue keeps its promise. */
module SrtLoss {
  import opened Arith
  import opened Messages
  import opened SrtProtocol
  import opened SrtSafety
  import opened SrtAdmission

  ghost predicate Reachable(c: Config, s: State)
    requires Valid(c)
  {
    exists run: seq<State> :: IsRun(c, run) && run[|run| - 1] == s
  }

  lemma Go(c: Config, s: State, a: Act) returns (s': State)
    requires Valid(c) && Reachable(c, s) && Enabled(c, s, a)
    ensures Shaped(c, s) && Loaded(c, s) && s' == Do(c, s, a)
    ensures Reachable(c, s') && Shaped(c, s') && Loaded(c, s')
  {
    var run: seq<State> :| IsRun(c, run) && run[|run| - 1] == s;
    RunsKeepShape(c, run);
    s' := Do(c, s, a);
    StepKeepsShape(c, s, a);
    var longer := run + [s'];
    forall i | 0 <= i < |longer| - 1 ensures StepAt(c, longer, i) {
      if i < |run| - 1 {
        assert StepAt(c, run, i);
      }
    }
    assert IsRun(c, longer);
  }

  /** A reachable state in which the invariant still holds and the mutex is free. */
  ghost predicate Sound(c: Config, s: State)
    requires Valid(c)
  {
    Reachable(c, s) && Inv(c, s) && s.con.Ready? && s.mem.owner == None
  }

  ghost predicate Calm(c: Config, s: State)
    requires Valid(c)
  {
    Sound(c, s) && forall p :: 0 <= p < c.k ==> s.ps[p].Idle?
  }

  /** A step that moves neither counter keeps the window, and so the invariant. */
  lemma GoSound(c: Config, s: State, a: Act) returns (s': State)
    requires Valid(c) && Reachable(c, s) && Inv(c, s) && Enabled(c, s, a) && !a.Draw? && !a.Advance?
    ensures s' == Do(c, s, a) && Reachable(c, s') && Inv(c, s')
  {
    s' := Go(c, s, a);
    CountersKept(c, s, a);
    StepInv(c, s, a);
  }

  lemma CountersKept(c: Config, s: State, a: Act)
    requires Valid(c) && Shaped(c, s) && Loaded(c, s) && Enabled(c, s, a) && !a.Draw? && !a.Advance?
    ensures var s' := Do(c, s, a); s'.post == s.post && s'.get == s.get
  {
  }

  // ---------------------------------------------------------------- undisturbed pushes and pops

  lemma Admit(c: Config, s: State, p: nat, msg: Msg) returns (s': State)
    requires Valid(c) && Sound(c, s) && p < c.k && s.ps[p].Idle? && |msg| == c.W && s.post - s.get < Limit(c)
    ensures Sound(c, s') && s' == s.(ps := s.ps[p := Admitted(msg)])
  {
    var s1 := GoSound(c, s, ReadPost(p, msg));
    FullIsLimit(c, s1.ps[p].post, s1.get);
    s' := GoSound(c, s1, Compare(p));
    assert s1.ps[p := Admitted(msg)] == s.ps[p := Admitted(msg)];
  }

  /** A sound state, except that producer p may hold the mutex while it looks its page up. */
  ghost predicate Between(c: Config, s: State, p: nat, at: Lookup)
    requires Valid(c)
  {
    && Reachable(c, s) && Inv(c, s) && s.con.Ready? && p < c.k && s.ps[p].Looking? && s.ps[p].at == at
    && (at == First || at == Lock || at == Fetch ==> s.mem.owner == None)
  }

  /** How many look-up steps are left at most. */
  function Rank(at: Lookup): nat {
    match at case First => 5 case Lock => 4 case Recheck => 3 case Install => 2 case Unlock => 1 case Fetch => 0
  }

  ghost predicate SameButLook(s: State, s': State, p: nat) {
    && s'.get == s.get && s'.post == s.post && s'.log == s.log && |s'.ps| == |s.ps|
    && (forall i :: 0 <= i < |s.ps| && i != p ==> s'.ps[i] == s.ps[i])
    && (p < |s.ps| && s.ps[p].Looking? ==> s'.ps[p].Looking? && s'.ps[p] == Looking(s.ps[p].msg, s.ps[p].t, s'.ps[p].at))
  }

  lemma LookEffect(c: Config, s: State, p: nat)
    requires Valid(c) && Shaped(c, s) && p < c.k && s.ps[p].Looking? && LookEnabled(s.mem, s.ps[p].at)
    ensures var s', at := DoPLook(c, s, p), s.ps[p].at;
      && SameButLook(s, s', p) && s'.con == s.con && Rank(s'.ps[p].at) < Rank(at)
      && (at == First ==> s'.ps[p].at == Lock || s'.ps[p].at == Fetch)
      && (at == Recheck || at == Install ==> s'.ps[p].at == Install || s'.ps[p].at == Unlock)
      && (at == Lock ==> s'.ps[p].at == Recheck)
      && s'.mem.owner == (if at == Lock then Some(p) else if at == Unlock then None else s.mem.owner)
  {
  }

  lemma LookOnce(c: Config, s: State, p: nat, at: Lookup) returns (s': State, at': Lookup)
    requires Valid(c) && Between(c, s, p, at) && at != Fetch
    ensures Between(c, s', p, at') && SameButLook(s, s', p) && Rank(at') < Rank(at)
  {
    LookEffect(c, s, p);
    s' := Go(c, s, PLook(p));
    PLookStep(c, s, p);
    at' := s'.ps[p].at;
  }

  lemma {:induction false} FinishLookup(c: Config, s: State, p: nat, at: Lookup) returns (s': State)
    requires Valid(c) && Between(c, s, p, at)
    ensures Between(c, s', p, Fetch) && SameButLook(s, s', p)
    decreases Rank(at)
  {
    if at == Fetch {
      s' := s;
    } else {
      var s1, at1 := LookOnce(c, s, p, at);
      s' := FinishLookup(c, s1, p, at1);
    }
  }

  lemma {:induction false} FinishWords(c: Config, s: State, p: nat) returns (s': State)
    requires Valid(c) && Sound(c, s) && p < c.k && s.ps[p].Writing?
    ensures Sound(c, s') && s'.get == s.get && s'.post == s.post && s'.log == s.log
    ensures s'.ps == s.ps[p := Idle]
    decreases c.W - s.ps[p].done
  {
    hide Quot, Rem, MemOk, ConsumerOk, HistoryOk, Reachable;
    assert ProducerOk(c, s, p);
    if s.ps[p].done < c.W {
      var s1 := GoSound(c, s, WriteWord(p));
      s' := FinishWords(c, s1, p);
      assert s1.ps[p := Idle] == s.ps[p := Idle];
    } else {
      s' := GoSound(c, s, SetFlag(p));
    }
  }

  lemma Grab(c: Config, s: State, p: nat) returns (s': State)
    requires Valid(c) && Between(c, s, p, Fetch)
    ensures Sound(c, s') && s'.get == s.get && s'.post == s.post && s'.log == s.log
    ensures |s'.ps| == |s.ps| && s'.ps[p].Writing? && s'.ps == s.ps[p := s'.ps[p]]
  {
    assert ProducerOk(c, s, p);
    s' := GoSound(c, s, PFetch(p));
  }

  /** From its ticket on, a producer left alone completes its push. */
  lemma FinishPush(c: Config, s: State, p: nat) returns (s': State)
    requires Valid(c) && Sound(c, s) && p < c.k && s.ps[p].Looking? && s.ps[p].at == First
    ensures Sound(c, s') && s'.get == s.get && s'.post == s.post && s'.log == s.log
    ensures s'.ps == s.ps[p := Idle]
  {
    var s1 := FinishLookup(c, s, p, First);
    var s2 := Grab(c, s1, p);
    s' := FinishWords(c, s2, p);
    assert s2.ps[p := Idle] == s.ps[p := Idle];
  }

  lemma DrawTicket(c: Config, s: State, p: nat) returns (s': State)
    requires Valid(c) && Sound(c, s) && p < c.k && s.ps[p].Admitted? && s.post - s.get <= Limit(c)
    ensures Sound(c, s') && s'.get == s.get && s'.post == s.post + 1
    ensures s'.ps == s.ps[p := Looking(s.ps[p].msg, s.post, First)]
  {
    s' := Go(c, s, Draw(p));
    SmallOvershootFits(c, s');
    DrawStep(c, s, p);
  }

  /** A producer that has been admitted draws its ticket and completes, if that ticket
      stays in the window. */
  lemma DrawAndFinish(c: Config, s: State, p: nat) returns (s': State)
    requires Valid(c) && Sound(c, s) && p < c.k && s.ps[p].Admitted? && s.post - s.get <= Limit(c)
    ensures Sound(c, s') && s'.get == s.get && s'.post == s.post + 1
    ensures s'.ps == s.ps[p := Idle]
  {
    hide Reachable, MemOk, HistoryOk, ConsumerOk, ProducerOk;
    var s1 := DrawTicket(c, s, p);
    s' := FinishPush(c, s1, p);
    assert s1.ps[p := Idle] == s.ps[p := Idle];
  }

  lemma {:induction false} Fill(c: Config, s: State, n: nat) returns (s': State)
    requires Valid(c) && c.k > 0 && Calm(c, s) && s.post - s.get + n <= Limit(c)
    ensures Calm(c, s') && s'.get == s.get && s'.post == s.post + n
    decreases n
  {
    s' := s;
    if n > 0 {
      var s1 := Admit(c, s, 0, Zeros(c.W));
      var s2 := DrawAndFinish(c, s1, 0);
      s' := Fill(c, s2, n - 1);
    }
  }

  lemma {:induction false} CopyAll(c: Config, s: State) returns (s': State)
    requires Valid(c) && Reachable(c, s) && Inv(c, s) && s.mem.owner == None && s.con.Copying?
    ensures Reachable(c, s') && Inv(c, s') && s'.con.Copying? && |s'.con.buf| >= c.W
    ensures s' == s.(con := s'.con)
    decreases c.W - |s.con.buf|
  {
    s' := s;
    if |s.con.buf| < c.W {
      var s1 := GoSound(c, s, CopyWord);
      s' := CopyAll(c, s1);
    }
  }

  lemma LeaveSlot(c: Config, s: State) returns (s': State)
    requires Valid(c) && Reachable(c, s) && Inv(c, s) && s.mem.owner == None && s.con.Copying? && |s.con.buf| >= c.W
    ensures Reachable(c, s') && Inv(c, s') && s'.con.Advancing? && s'.mem.owner == None
    ensures s'.get == s.get && s'.post == s.post && s'.log == s.log && s'.ps == s.ps
  {
    var s1 := GoSound(c, s, Copied);
    if s1.con.Deleting? {
      var s2 := FreePage(c, s1);
      s' := GoSound(c, s2, Clear);
    } else {
      s' := s1;
    }
  }

  lemma FreePage(c: Config, s: State) returns (s': State)
    requires Valid(c) && Reachable(c, s) && Inv(c, s) && s.con.Deleting?
    ensures Reachable(c, s') && Inv(c, s') && s'.con.Clearing?
    ensures s' == s.(con := s'.con, mem := s.mem.(heap := s'.mem.heap))
  {
    s' := GoSound(c, s, Delete);
  }

  lemma FinishCopy(c: Config, s: State) returns (s': State)
    requires Valid(c) && Reachable(c, s) && Inv(c, s) && s.mem.owner == None && s.con.Copying?
    ensures Sound(c, s') && s'.get == s.get + 1 && s'.post == s.post && s'.log == s.log && s'.ps == s.ps
  {
    var s1 := CopyAll(c, s);
    var s2 := LeaveSlot(c, s1);
    s' := Go(c, s2, Advance);
    QuotMono(s2.get, s2.get + 1, c.M);
    AdvanceStep(c, s2);
  }

  /** The consumer finds the filled page of its ticket without locking. */
  lemma Arrive(c: Config, s: State) returns (s': State)
    requires Valid(c) && Sound(c, s) && s.get < s.post && !InFlight(s, s.get)
    ensures Reachable(c, s') && Inv(c, s') && s'.con.Testing? && s' == s.(con := s'.con)
  {
    PresentAtGet(c, s);
    var s1 := GoSound(c, s, Begin);
    assert s1 == s.(con := Finding(First));
    var s2 := GoSound(c, s1, CLook);
    assert s2 == s.(con := Finding(Fetch));
    s' := GoSound(c, s2, CFetch);
  }

  lemma PresentAtGet(c: Config, s: State)
    requires Valid(c) && Inv(c, s) && s.con.Ready? && s.get < s.post && !InFlight(s, s.get)
    ensures s.mem.table[Ent(c, Pg(c, s.get))].Some?
  {
    assert s.log[s.get].p < c.k;
    assert PresentOk(c, s, s.get);
  }

  lemma Pop(c: Config, s: State) returns (s': State)
    requires Valid(c) && Calm(c, s) && s.get < s.post
    ensures Calm(c, s') && s'.get == s.get + 1 && s'.post == s.post
  {
    assert s.log[s.get].p < c.k && s.ps[s.log[s.get].p].Idle?;
    var s1 := Arrive(c, s);
    PopSeesItsOwnTicket(c, s1);
    var s2 := GoSound(c, s1, Test);
    s' := FinishCopy(c, s2);
  }

  /** Any number of messages can pass through; the queue is empty again afterwards. */
  lemma {:induction false} PassThrough(c: Config, n: nat) returns (s: State)
    requires Valid(c) && c.k > 0
    ensures Calm(c, s) && s.get == n && s.post == n
    decreases n
  {
    if n == 0 {
      s := Init(c);
      InitInv(c);
      assert IsRun(c, [s]);
    } else {
      s := PassThrough(c, n - 1);
      MulMono(c.C - 1, c.M);
      s := Fill(c, s, 1);
      s := Pop(c, s);
    }
  }

  // ---------------------------------------------------------------- the losing run

  /** The consumer waits at the last slot of page 0, everything up to the limit and one
      more is filled, and producer 2 has been admitted: its ticket will be C * M. */
  lemma Brink(c: Config) returns (s: State)
    requires Valid(c) && c.k >= 3
    ensures Sound(c, s) && s.get == c.M - 1 && s.post == c.C * c.M
    ensures s.ps[2] == Admitted(Zeros(c.W)) && forall p :: 0 <= p < c.k && p != 2 ==> s.ps[p].Idle?
  {
    hide Quot, Rem, MemOk, ProducerOk, ConsumerOk, HistoryOk, Reachable, Window, PageShaped;
    MulMono(c.C - 1, c.M);
    assert c.C * c.M == Limit(c) + c.M;
    var s1 := PassThrough(c, c.M - 1);
    var s2 := Fill(c, s1, Limit(c) - 1);
    var s3 := ThreeAdmitted(c, s2, 0);
    s := TwoDraw(c, s3);
  }

  lemma TwoDraw(c: Config, s: State) returns (s': State)
    requires Valid(c) && c.k >= 3 && Sound(c, s) && s.post - s.get < Limit(c)
    requires forall p :: 0 <= p < c.k ==> s.ps[p] == if p < 3 then Admitted(Zeros(c.W)) else Idle
    ensures Sound(c, s') && s'.get == s.get && s'.post == s.post + 2
    ensures s'.ps[2] == Admitted(Zeros(c.W)) && forall p :: 0 <= p < c.k && p != 2 ==> s'.ps[p].Idle?
  {
    var s1 := DrawAndFinish(c, s, 0);
    s' := DrawAndFinish(c, s1, 1);
  }

  /** All three producers pass the test before any of them draws its ticket. */
  lemma {:induction false} ThreeAdmitted(c: Config, s: State, n: nat) returns (s': State)
    requires Valid(c) && c.k >= 3 && n <= 3 && Sound(c, s) && s.post - s.get < Limit(c)
    requires forall p :: 0 <= p < c.k ==> s.ps[p] == if p < n then Admitted(Zeros(c.W)) else Idle
    ensures Sound(c, s') && s'.post == s.post && s'.get == s.get
    ensures forall p :: 0 <= p < c.k ==> s'.ps[p] == if p < 3 then Admitted(Zeros(c.W)) else Idle
    decreases 3 - n
  {
    s' := s;
    if n < 3 {
      var s1 := Admit(c, s, n, Zeros(c.W));
      s' := ThreeAdmitted(c, s1, n + 1);
    }
  }

  lemma TicketOnPageC(c: Config)
    requires Valid(c)
    ensures c.C * c.M >= 0
    ensures Pg(c, c.C * c.M) == c.C && Ent(c, c.C) == 0 && Ent(c, 0) == 0
    ensures Pg(c, c.M - 1) == 0 && Off(c, c.M - 1) == c.M - 1
  {
    AddBlocks(0, c.M, c.C);
    assert Rem(c.C, c.C) == Rem(c.C - c.C, c.C);
  }

  /** Page 0 is in memory at address a under entry 0, its last slot ready. */
  ghost predicate Trap(c: Config, s: State, a: nat)
    requires Valid(c)
  {
    && Reachable(c, s) && Shaped(c, s)
    && s.get == c.M - 1 && s.mem.table[0] == Some(a) && a in s.mem.heap
    && |s.mem.heap[a].slots| == c.M && s.mem.heap[a].slots[c.M - 1].flag
  }

  lemma TrapIsSet(c: Config, s: State) returns (a: nat)
    requires Valid(c) && Sound(c, s) && s.get == c.M - 1 && s.get < s.post && !InFlight(s, s.get)
    ensures Trap(c, s, a)
  {
    TicketOnPageC(c);
    InvIsSafe(c, s);
    assert Stored(c, s, s.get);
    a := s.mem.table[0].value;
    assert PageShaped(c, s.mem.heap[a]);
  }

  /** Producer 2 is handed page 0 for a ticket of page C. */
  lemma SpringTrap(c: Config, s: State, a: nat) returns (s': State)
    requires Valid(c) && c.k >= 3 && Trap(c, s, a) && s.con.Ready? && s.post == c.C * c.M
    requires s.ps[2] == Admitted(Zeros(c.W))
    ensures Trap(c, s', a) && s'.con.Ready? && s'.post == s.post + 1
    ensures s'.log == s.log + [Entry(2, Zeros(c.W))]
    ensures s'.ps == s.ps[2 := Writing(Zeros(c.W), s.post, a, 0)]
  {
    TicketOnPageC(c);
    var s1 := Go(c, s, Draw(2));
    var s2 := Go(c, s1, PLook(2));
    assert s2.ps[2] == Looking(Zeros(c.W), s.post, Fetch) && s2.mem == s.mem;
    s' := Go(c, s2, PFetch(2));
    assert s'.ps == s.ps[2 := Writing(Zeros(c.W), s.post, a, 0)];
  }

  lemma {:induction false} Overwrite(c: Config, s: State, a: nat) returns (s': State)
    requires Valid(c) && c.k >= 3 && Trap(c, s, a) && s.con.Ready?
    requires s.ps[2].Writing? && s.ps[2].page == a
    ensures Trap(c, s', a) && s'.con.Ready? && s'.post == s.post && s'.log == s.log
    ensures s'.ps == s.ps[2 := Idle] && s'.sent == s.sent[2 := s.sent[2] + [s.ps[2].msg]]
    decreases c.W - s.ps[2].done
  {
    QuotRem(s.ps[2].t, c.M);
    if s.ps[2].done < c.W {
      var s1 := Go(c, s, WriteWord(2));
      assert PageShaped(c, s1.mem.heap[a]);
      assert s1.ps[2 := Idle] == s.ps[2 := Idle];
      s' := Overwrite(c, s1, a);
    } else {
      s' := Go(c, s, SetFlag(2));
      assert PageShaped(c, s'.mem.heap[a]);
    }
  }

  lemma {:induction false} CopyBlind(c: Config, s: State, a: nat) returns (s': State)
    requires Valid(c) && Trap(c, s, a) && s.con.Copying? && s.con.page == a
    ensures Trap(c, s', a) && s'.con.Copying? && s'.con.page == a && |s'.con.buf| >= c.W
    ensures s' == s.(con := s'.con)
    decreases c.W - |s.con.buf|
  {
    s' := s;
    if |s.con.buf| < c.W {
      var s1 := Go(c, s, CopyWord);
      s' := CopyBlind(c, s1, a);
    }
  }

  lemma FreeBlind(c: Config, s: State, a: nat) returns (s': State)
    requires Valid(c) && Trap(c, s, a) && s.con.Copying? && s.con.page == a && |s.con.buf| >= c.W
    ensures Reachable(c, s') && Shaped(c, s') && s'.get == c.M && s'.con.Ready?
    ensures s'.post == s.post && s'.log == s.log && s'.ps == s.ps && s'.sent == s.sent
    ensures s'.mem.table[0] == None
  {
    TicketOnPageC(c);
    var s1 := Go(c, s, Copied);
    var s2 := Go(c, s1, Delete);
    var s3 := Go(c, s2, Clear);
    s' := Go(c, s3, Advance);
  }

  /** One pop takes the ticket before it and frees the page the message was put on. */
  lemma PopPageAway(c: Config, s: State, a: nat) returns (s': State)
    requires Valid(c) && Trap(c, s, a) && s.con.Ready? && s.get < s.post
    ensures Reachable(c, s') && Shaped(c, s') && s'.get == c.M && s'.con.Ready?
    ensures s'.post == s.post && s'.log == s.log && s'.ps == s.ps && s'.sent == s.sent
    ensures s'.mem.table[0] == None
  {
    TicketOnPageC(c);
    s' := Go(c, s, Begin);
    s' := Go(c, s', CLook);
    s' := Go(c, s', CFetch);
    s' := Go(c, s', Test);
    s' := CopyBlind(c, s', a);
    s' := FreeBlind(c, s', a);
  }

  /** With three or more producers, for every page size, table size and message size:
      a reachable state where all threads are at rest, a push that returned true has not
      been popped, and its message is not in the queue. */
  lemma ThreeProducersLose(c: Config) returns (s: State, t: nat)
    requires Valid(c) && c.k >= 3
    ensures Reachable(c, s) && Shaped(c, s)
    ensures s.con.Ready? && forall p :: 0 <= p < c.k ==> s.ps[p].Idle?
    ensures s.get <= t < s.post && s.sent[s.log[t].p] != [] && !Stored(c, s, t)
  {
    t := c.C * c.M;
    TicketOnPageC(c);
    MulMono(c.C - 1, c.M);
    assert t == Limit(c) + c.M;
    var brink := Brink(c);
    assert brink.log[brink.get].p < c.k;
    var a := TrapIsSet(c, brink);
    var sprung := SpringTrap(c, brink, a);
    assert sprung.log[t] == Entry(2, Zeros(c.W));
    var written := Overwrite(c, sprung, a);
    s := PopPageAway(c, written, a);
    assert !Resident(c, s.mem, Pg(c, t));
  }

  /** Main theorem.  Every accepted message stays in the queue until it is popped, in
      every reachable state, if and only if there are at most two producers. */
  lemma NothingLostIffTwoProducers(c: Config)
    requires Valid(c)
    ensures (forall s :: Reachable(c, s) ==> Shaped(c, s) && NothingLost(c, s)) <==> c.k <= 2
  {
    if c.k <= 2 {
      forall s | Reachable(c, s) ensures Shaped(c, s) && NothingLost(c, s) {
        var run: seq<State> :| IsRun(c, run) && run[|run| - 1] == s;
        TwoProducersAreSafe(c, run);
      }
    } else {
      var s, t := ThreeProducersLose(c);
      assert s.log[t].p < c.k;
      assert !NothingLost(c, s);
    }
  }
}
