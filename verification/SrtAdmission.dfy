/** How far the ticket counter can run past the capacity test.  The test and the
    fetch-and-increment are separate steps, and the test itself reads its two counters
    one after the other; this bounds the overshoot for any number of producers. */
module SrtAdmission {
  import opened Arith
  import opened FiniteSets
  import opened Messages
  import opened SrtProtocol
  import opened SrtSafety

  /** Producers that passed the capacity test and have not drawn a ticket yet. */
  ghost function Pending(s: State): set<nat> {
    set p | 0 <= p < |s.ps| && s.ps[p].Admitted?
  }

  /** Producers holding an old value of the ticket counter. */
  ghost function Stale(s: State): set<nat> {
    set p | 0 <= p < |s.ps| && s.ps[p].SawPost?
  }

  /** G is a consumer position at which every producer of S would pass the test. */
  ghost predicate Admits(c: Config, s: State, S: set<nat>, G: int) {
    && S <= Stale(s)
    && s.get <= G
    && forall q :: q in S ==> s.ps[q].post - G < Limit(c)
  }

  ghost predicate Budget(c: Config, s: State, S: set<nat>, G: int) {
    Admits(c, s, S, G) ==> s.post - G + |Pending(s)| + |S| <= Limit(c) - 1 + c.k
  }

  ghost predicate Bounded(c: Config, s: State) {
    && |s.ps| == c.k
    && (forall p :: 0 <= p < |s.ps| ==> (s.ps[p].SawGet? ==> s.ps[p].get <= s.get))
    && forall S, G :: Budget(c, s, S, G)
  }

  /** The shift-and-compare of the source is a plain comparison with the limit. */
  lemma FullIsLimit(c: Config, post: int, get: int)
    requires Valid(c)
    ensures Full(c, post, get) <==> post - get >= Limit(c)
  {
    var d, q, m := post - get, (post - get) / c.M, c.C - 1;
    assert d == c.M * q + d % c.M;
    MulMono(q - m, c.M);
    MulMono(m - q, c.M);
    assert (q - m) * c.M == c.M * q - m * c.M;
    assert (m - q) * c.M == m * c.M - c.M * q;
  }

  /** A push that meets nobody between its two counter reads is admitted, whichever it reads
      first, iff fewer than the limit are out; nothing else changes. */
  lemma AdmittedIff(c: Config, s: State, p: nat, msg: Msg, first: Act)
    requires Valid(c) && Shaped(c, s) && Loaded(c, s)
    requires (first == ReadPost(p, msg) || first == ReadGet(p, msg)) && Enabled(c, s, first)
    ensures var s1 := Do(c, s, first);
      && Shaped(c, s1) && Loaded(c, s1) && Enabled(c, s1, Compare(p))
      && Do(c, s1, Compare(p)) == At(s, p, if s.post - s.get < Limit(c) then Admitted(msg) else Idle)
  {
    StepKeepsShape(c, s, first);
    FullIsLimit(c, s.post, s.get);
    assert Do(c, s, first).ps[p := s.ps[p]] == s.ps;
  }

  lemma InitBounded(c: Config)
    requires Valid(c)
    ensures Bounded(c, Init(c))
  {
    assert Limit(c) >= 1 by { MulMono(c.C - 1, c.M); }
    assert Pending(Init(c)) == {};
    forall S, G ensures Budget(c, Init(c), S, G) {
      if Admits(c, Init(c), S, G) {
        assert S == {};
      }
    }
  }

  /** A producer starts a test by reading the ticket counter. */
  lemma ReadPostBounded(c: Config, s: State, p: nat, msg: Msg)
    requires Valid(c) && Bounded(c, s) && p < |s.ps| && s.ps[p].Idle?
    ensures Bounded(c, At(s, p, SawPost(msg, s.post)))
  {
    var s' := At(s, p, SawPost(msg, s.post));
    assert Pending(s') == Pending(s);
    forall S, G ensures Budget(c, s', S, G) {
      if Admits(c, s', S, G) {
        if p in S {
          CountBoth(S, Pending(s'), c.k);
        } else {
          assert Admits(c, s, S, G);
          assert Budget(c, s, S, G);
        }
      }
    }
  }

  /** Steps that neither admit, draw nor start a test can only help. */
  lemma QuietBounded(c: Config, s: State, s': State)
    requires Bounded(c, s) && |s'.ps| == |s.ps| && s'.post == s.post && s'.get >= s.get
    requires forall p :: 0 <= p < |s.ps| ==> s'.ps[p] == s.ps[p] || !(s'.ps[p].SawPost? || s'.ps[p].Admitted?)
    requires forall p :: 0 <= p < |s.ps| ==> (s'.ps[p].SawGet? ==> s'.ps[p].get <= s'.get)
    ensures Bounded(c, s')
  {
    assert Pending(s') <= Pending(s);
    SubsetSize(Pending(s'), Pending(s));
    forall S, G ensures Budget(c, s', S, G) {
      if Admits(c, s', S, G) {
        assert Admits(c, s, S, G);
        assert Budget(c, s, S, G);
      }
    }
  }

  /** Passing the test spends the producer's place in the budget. */
  lemma AdmitBounded(c: Config, s: State, p: nat)
    requires Valid(c) && Bounded(c, s) && p < |s.ps| && (s.ps[p].SawPost? || s.ps[p].SawGet?)
    requires DoCompare(c, s, p).ps[p].Admitted?
    ensures Bounded(c, DoCompare(c, s, p))
  {
    var s' := DoCompare(c, s, p);
    var q := s.ps[p];
    assert Pending(s') == Pending(s) + {p};
    FullIsLimit(c, if q.SawPost? then q.post else s.post, if q.SawPost? then s.get else q.get);
    hide Full;
    forall S, G ensures Budget(c, s', S, G) {
      if Admits(c, s', S, G) {
        if q.SawPost? {
          AdmitAfterPost(c, s, s', p, S, G);
        } else {
          CountBoth(S, Pending(s'), c.k);
        }
      }
    }
  }

  lemma AdmitAfterPost(c: Config, s: State, s': State, p: nat, S: set<nat>, G: int)
    requires Bounded(c, s) && p < |s.ps| && s.ps[p].SawPost? && s' == At(s, p, Admitted(s.ps[p].msg))
    requires s.ps[p].post - s.get < Limit(c) && Admits(c, s', S, G) && Pending(s') == Pending(s) + {p}
    ensures Budget(c, s', S, G)
  {
    assert Admits(c, s, S + {p}, G);
    assert Budget(c, s, S + {p}, G);
    assert |S + {p}| == |S| + 1;
  }

  lemma DrawBounded(c: Config, s: State, p: nat)
    requires Valid(c) && Bounded(c, s) && p < |s.ps| && s.ps[p].Admitted?
    ensures Bounded(c, DoDraw(s, p))
  {
    var s' := DoDraw(s, p);
    assert Pending(s) == Pending(s') + {p};
    forall S, G ensures Budget(c, s', S, G) {
      if Admits(c, s', S, G) {
        assert Admits(c, s, S, G);
        assert Budget(c, s, S, G);
      }
    }
  }

  lemma ReadGetBounded(c: Config, s: State, p: nat, msg: Msg)
    requires Valid(c) && Bounded(c, s) && p < |s.ps| && s.ps[p].Idle? && s.get <= s.post
    ensures Bounded(c, At(s, p, SawGet(msg, s.get)))
  {
    QuietBounded(c, s, At(s, p, SawGet(msg, s.get)));
  }

  /** Steps other than the counter reads and the draw leave the counters to themselves, and
      leave no producer between its test and its draw who was not there before. */
  lemma QuietAct(c: Config, s: State, a: Act)
    requires Valid(c) && Shaped(c, s) && Loaded(c, s) && Enabled(c, s, a)
    requires !a.ReadPost? && !a.ReadGet? && !a.Draw?
    ensures var s' := Do(c, s, a);
      && s'.post == s.post && s'.get >= s.get && |s'.ps| == |s.ps|
      && forall p :: 0 <= p < |s.ps| ==>
           || s'.ps[p] == s.ps[p] || (a == Compare(p) && s'.ps[p].Admitted?)
           || !(s'.ps[p].SawPost? || s'.ps[p].SawGet? || s'.ps[p].Admitted?)
  {
    hide Quot, Rem, PageShaped, Full, Look;
  }

  lemma StepBounded(c: Config, s: State, a: Act)
    requires Valid(c) && Shaped(c, s) && Loaded(c, s) && Enabled(c, s, a) && Bounded(c, s)
    ensures Bounded(c, Do(c, s, a))
  {
    if a.ReadPost? {
      ReadPostBounded(c, s, a.p, a.msg);
    } else if a.ReadGet? {
      ReadGetBounded(c, s, a.p, a.msg);
    } else if a.Draw? {
      DrawBounded(c, s, a.p);
    } else if a.Compare? && DoCompare(c, s, a.p).ps[a.p].Admitted? {
      AdmitBounded(c, s, a.p);
    } else {
      QuietAct(c, s, a);
      hide Do;
      QuietBounded(c, s, Do(c, s, a));
    }
  }

  lemma {:induction false} RunBounded(c: Config, run: seq<State>)
    requires Valid(c) && IsRun(c, run)
    ensures Bounded(c, run[|run| - 1])
    decreases |run|
  {
    hide Bounded, DoPLook, DoPFetch, DoWriteWord, DoSetFlag, DoCLook, DoCFetch, DoTest, DoCopyWord, DoDelete, DoClear;
    var n := |run| - 1;
    if n == 0 {
      InitBounded(c);
    } else {
      ShorterRun(c, run);
      RunBounded(c, run[..n]);
      assert StepAt(c, run, n - 1);
      var a :| Enabled(c, run[n - 1], a) && run[n] == Do(c, run[n - 1], a);
      StepBounded(c, run[n - 1], a);
    }
  }

  /** In every state of every run, with any number of producers: what is held plus what
      has been promised a ticket is at most the limit plus k - 1. */
  lemma Overshoot(c: Config, run: seq<State>)
    requires Valid(c) && IsRun(c, run)
    ensures var s := run[|run| - 1]; s.post - s.get + |Pending(s)| <= Limit(c) - 1 + c.k
  {
    RunBounded(c, run);
    var s := run[|run| - 1];
    assert Budget(c, s, {}, s.get) && Admits(c, s, {}, s.get);
  }

  /** An overshoot of one keeps every drawn ticket inside the window. */
  lemma SmallOvershootFits(c: Config, s: State)
    requires Valid(c) && Shaped(c, s) && s.post - s.get <= Limit(c) + 1
    ensures Window(c, s)
  {
    if s.post > 0 {
      AddBlocks(s.get, c.M, c.C - 1);
      QuotMono(s.post - 1, s.get + (c.C - 1) * c.M, c.M);
    }
  }

  /** With at most two producers the window is kept in every run. */
  lemma {:induction false} TwoProducersStayInWindow(c: Config, run: seq<State>)
    requires Valid(c) && IsRun(c, run) && c.k <= 2
    ensures forall i :: 0 <= i < |run| ==> Window(c, run[i])
    decreases |run|
  {
    var n := |run| - 1;
    RunsKeepShape(c, run);
    Overshoot(c, run);
    SmallOvershootFits(c, run[n]);
    if n > 0 {
      ShorterRun(c, run);
      TwoProducersStayInWindow(c, run[..n]);
    }
  }

  /** Main safety theorem for one or two producers: in every state of every run, pops are
      FIFO and whole, nothing accepted is lost, and no freed or null page is touched. */
  lemma TwoProducersAreSafe(c: Config, run: seq<State>)
    requires Valid(c) && IsRun(c, run) && c.k <= 2
    ensures var s := run[|run| - 1]; Shaped(c, s) && Fifo(c, s) && NothingLost(c, s) && !s.fault
  {
    hide Next;
    TwoProducersStayInWindow(c, run);
    WindowRun(c, run);
    InvIsSafe(c, run[|run| - 1]);
  }
}
