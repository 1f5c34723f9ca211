/** The page table of the append-only queue doubles on demand, but the doubling loop of
    base/src/mqueue.h:322 stops one step early when the wanted page number equals the new
    size.  This settles when that can happen. */
module DrbGrowth {
  import opened Arith
  import opened FiniteSets
  import opened Messages
  import opened DrbProtocol
  import opened DrbSafety

  /** 2 * size doubled j times. */
  function Doubled(size: nat, j: nat): nat {
    if j == 0 then size else 2 * Doubled(size, j - 1)
  }

  lemma {:induction false} DoubledShift(size: nat, j: nat)
    ensures Doubled(2 * size, j) == Doubled(size, j + 1)
    decreases j
  {
    if j > 0 { DoubledShift(size, j - 1); }
  }

  /** The loop's result in closed form: misses page n iff n is the start size times a
      positive power of two. */
  lemma {:induction false} ExtendMisses(size: nat, n: nat)
    requires size >= 1
    ensures Extend(size, n) == n && n >= size <==> exists j: nat :: n == Doubled(size, j)
    decreases n - size
  {
    if n > size {
      ExtendMisses(2 * size, n);
      if Extend(2 * size, n) == n && n >= 2 * size {
        var j: nat :| n == Doubled(2 * size, j);
        DoubledShift(size, j);
        assert n == Doubled(size, j + 1);
      }
      if j: nat :| n == Doubled(size, j) {
        assert j > 0;
        DoubledShift(size, j - 1);
        assert n == Doubled(2 * size, j - 1);
      }
    } else {
      forall j: nat ensures Doubled(size, j) >= size { DoubledGrows(size, j); }
      assert n == size ==> n == Doubled(size, 0);
    }
  }

  lemma {:induction false} DoubledGrows(size: nat, j: nat)
    ensures Doubled(size, j) >= size
    decreases j
  {
    if j > 0 { DoubledGrows(size, j - 1); }
  }

  /** A look-up past the end of the table runs off the new table exactly when the page
      number is the current size times 2, 4, 8, ... */
  lemma GrowthMissesIff(table: seq<Option<nat>>, n: nat)
    requires |table| >= 1 && n >= |table|
    ensures n >= |Grown(table, n)| <==> exists j: nat :: n == Doubled(2 * |table|, j)
    ensures Grown(table, n)[..|table|] == table
  {
    ExtendMisses(2 * |table|, n);
  }

  // ---------------------------------------------------------------- counting tickets in flight

  /** The producers that drew tickets lo, ..., hi - 1. */
  ghost function Owners(s: Queue, lo: nat, hi: nat): set<nat>
    requires lo <= hi <= |s.log|
    decreases hi
  {
    if lo == hi then {} else Owners(s, lo, hi - 1) + {s.log[hi - 1].p}
  }

  lemma {:induction false} OwnersOf(s: Queue, lo: nat, hi: nat)
    requires lo <= hi <= |s.log|
    ensures forall p :: p in Owners(s, lo, hi) <==> exists t :: lo <= t < hi && s.log[t].p == p
    decreases hi
  {
    if lo < hi { OwnersOf(s, lo, hi - 1); }
  }

  /** Tickets that have not been flagged belong to different producers. */
  lemma {:induction false} DistinctOwners(s: Queue, lo: nat, hi: nat)
    requires lo <= hi <= |s.log| && forall t :: lo <= t < hi ==> s.log[t].p < |s.ps| && !Up(s, t)
    ensures |Owners(s, lo, hi)| == hi - lo
    decreases hi
  {
    if lo < hi {
      DistinctOwners(s, lo, hi - 1);
      OwnersOf(s, lo, hi - 1);
      assert Unflagged(s.ps[s.log[hi - 1].p], hi - 1);
      forall t | lo <= t < hi - 1 ensures s.log[t].p != s.log[hi - 1].p {
        assert Unflagged(s.ps[s.log[t].p], t);
      }
    }
  }

  /** A page that is not in the table holds no raised flag. */
  lemma NotUpBeyond(c: Setup, s: Queue, lo: nat, t: nat)
    requires Proper(c) && Inv(c, s) && lo == |s.table| * c.M && lo <= t < s.post
    ensures s.log[t].p < |s.ps| && !Up(s, t)
  {
    PageBelow(c, t, |s.table|);
    assert Up(s, t) ==> Present(c, s, t);
  }

  lemma OwnerIsBusy(s: Queue, t: nat)
    requires t < |s.log| && s.log[t].p < |s.ps| && !Up(s, t)
    ensures s.log[t].p in Busy(s)
  {
  }

  lemma BusyBelow(c: Setup, s: Queue)
    requires |s.ps| == c.k
    ensures |Busy(s)| <= c.k
  {
    CountBelow(Busy(s), c.k);
  }

  lemma PageBelow(c: Setup, t: nat, n: nat)
    requires Proper(c)
    ensures n * c.M >= 0
    ensures t < n * c.M <==> Number(c, t) < n
  {
    AddBlocks(0, c.M, n);
    if t >= n * c.M {
      QuotMono(n * c.M, t, c.M);
    } else {
      QuotMono(t, n * c.M - 1, c.M);
      QuotSucc(n * c.M - 1, c.M);
    }
  }

  /** Tickets beyond the pages of the table are all in flight. */
  lemma BeyondTable(c: Setup, s: Queue)
    requires Proper(c) && Inv(c, s)
    ensures |s.table| * c.M <= s.post ==> s.post - |s.table| * c.M <= |Busy(s)| <= c.k
    ensures s.written <= |s.table| * c.M
  {
    var lo := |s.table| * c.M;
    hide Quot, Rem, PagesOk, WriterOk, ReaderOk, AnswersOk, Up;
    BusyBelow(c, s);
    if lo <= s.post {
      forall t | lo <= t < s.post ensures s.log[t].p < |s.ps| && !Up(s, t) {
        NotUpBeyond(c, s, lo, t);
      }
      DistinctOwners(s, lo, s.post);
      OwnersOf(s, lo, s.post);
      forall p | p in Owners(s, lo, s.post) ensures p in Busy(s) {
        var t :| lo <= t < s.post && s.log[t].p == p;
        OwnerIsBusy(s, t);
      }
      SubsetSize(Owners(s, lo, s.post), Busy(s));
    }
  }

  // ---------------------------------------------------------------- few producers: no overflow

  /** A reader never needs the table to grow. */
  lemma ReaderNeverOverflows(c: Setup, s: Queue)
    requires Proper(c) && Inv(c, s) && s.reader.Finding?
    ensures Number(c, s.reader.pos) < |s.table| && !DoFind(c, s).fault
  {
    BeyondTable(c, s);
    PageBelow(c, s.reader.pos, |s.table|);
  }

  /** With at most start * M producers a look-up is at most one doubling ahead. */
  lemma FewProducersFit(c: Setup, s: Queue, p: nat)
    requires Proper(c) && Inv(c, s) && c.k <= c.start * c.M && p < c.k && s.ps[p].Drawn?
    ensures Number(c, s.ps[p].t) < 2 * |s.table|
    ensures !DoLookup(c, s, p).fault
  {
    hide Quot, Rem, PagesOk, ReaderOk, AnswersOk, Busy;
    var t := s.ps[p].t;
    assert WriterOk(c, s, p);
    BeyondTable(c, s);
    TwiceIsEnough(c.M, c.start, |s.table|, c.k, t);
    PageBelow(c, t, 2 * |s.table|);
    LookupInside(c, s, p);
  }

  lemma TwiceIsEnough(M: nat, start: nat, size: nat, k: nat, t: nat)
    requires start <= size && k <= start * M && t < size * M + k
    ensures t < (2 * size) * M
  {
    MulMono(size - start, M);
    assert (size - start) * M == size * M - start * M;
    assert (2 * size) * M == size * M + size * M;
  }

  lemma LookupInside(c: Setup, s: Queue, p: nat)
    requires Proper(c) && Inv(c, s) && p < c.k && s.ps[p].Drawn? && Number(c, s.ps[p].t) < 2 * |s.table|
    ensures !DoLookup(c, s, p).fault
  {
    GetPageInv(c, s, Number(c, s.ps[p].t));
  }

  lemma StepStaysInside(c: Setup, s: Queue, m: Move)
    requires Proper(c) && Inv(c, s) && Can(c, s, m) && c.k <= c.start * c.M
    ensures Inv(c, Make(c, s, m))
  {
    if m.Lookup? {
      FewProducersFit(c, s, m.p);
    } else if m.Find? {
      ReaderNeverOverflows(c, s);
    }
    MakeInv(c, s, m);
  }

  lemma {:induction false} InvAt(c: Setup, run: seq<Queue>, i: nat)
    requires Proper(c) && IsRun(c, run) && c.k <= c.start * c.M && i < |run|
    ensures Inv(c, run[i])
  {
    hide PagesOk, WriterOk, ReaderOk, AnswersOk, DoLookup, DoStore, DoFind, DoRead;
    if i == 0 {
      StartInv(c);
    } else {
      InvAt(c, run, i - 1);
      assert StepAt(c, run, i - 1);
      var m :| Can(c, run[i - 1], m) && run[i] == Make(c, run[i - 1], m);
      StepStaysInside(c, run[i - 1], m);
    }
  }

  // ---------------------------------------------------------------- one producer more: overflow

  lemma Step(c: Setup, s: Queue, m: Move) returns (s': Queue)
    requires Proper(c) && Reached(c, s) && Fits(c, s) && Can(c, s, m)
    ensures s' == Make(c, s, m) && Reached(c, s') && Fits(c, s')
  {
    s' := Make(c, s, m);
    MakeFits(c, s, m);
    var run: seq<Queue> :| IsRun(c, run) && run[|run| - 1] == s;
    assert Next(c, s, s');
    LongerRun(c, run, s');
    assert (run + [s'])[|run|] == s';
  }

  lemma {:induction false} FinishStore(c: Setup, s: Queue, p: nat) returns (s': Queue)
    requires Proper(c) && Reached(c, s) && Fits(c, s) && p < c.k && s.ps[p].Storing?
    ensures Reached(c, s') && Fits(c, s') && s'.post == s.post && s'.table == s.table && s'.fault == s.fault
    ensures s'.ps == s.ps[p := Free]
    decreases c.W - s.ps[p].done
  {
    if s.ps[p].done < c.W {
      var s1 := Step(c, s, StoreWord(p));
      assert s1.ps[p := Free] == s.ps[p := Free];
      s' := FinishStore(c, s1, p);
    } else {
      var s1 := Step(c, s, Flag(p));
      s' := Step(c, s1, Return(p));
      assert s'.ps == s.ps[p := Free];
    }
  }

  /** One undisturbed push into the initial table. */
  lemma PushOne(c: Setup, s: Queue) returns (s': Queue)
    requires Proper(c) && c.k > 0 && Reached(c, s) && Fits(c, s) && s.ps[0].Free? && !s.fault
    requires |s.table| == c.start && s.post < c.start * c.M
    ensures Reached(c, s') && Fits(c, s') && s'.post == s.post + 1 && |s'.table| == c.start && !s'.fault
    ensures s'.ps == s.ps
  {
    PageBelow(c, s.post, c.start);
    var s1 := Step(c, s, Draw(0, Zeros(c.W)));
    var s2 := Step(c, s1, Lookup(0));
    assert s2.ps[0].Storing? && s2.ps[0 := Free] == s.ps;
    s' := FinishStore(c, s2, 0);
  }

  /** The initial table filled to the brim by completed pushes, all producers free. */
  lemma {:induction false} FillTable(c: Setup, n: nat) returns (s: Queue)
    requires Proper(c) && c.k > 0 && n <= c.start * c.M
    ensures Reached(c, s) && Fits(c, s) && s.post == n && |s.table| == c.start && !s.fault
    ensures forall p :: 0 <= p < c.k ==> s.ps[p].Free?
    decreases n
  {
    if n == 0 {
      s := Start(c);
      StartInv(c);
      assert IsRun(c, [s]);
    } else {
      var s0 := FillTable(c, n - 1);
      s := PushOne(c, s0);
    }
  }

  /** Producers 0, ..., n - 1 all draw before any of them looks a page up. */
  lemma {:induction false} AllDraw(c: Setup, room: nat, n: nat) returns (s: Queue)
    requires Proper(c) && room == c.start * c.M && 0 < c.k && n <= c.k
    ensures Reached(c, s) && Fits(c, s) && s.post == room + n && |s.table| == c.start && !s.fault
    ensures forall p :: 0 <= p < c.k ==> s.ps[p] == if p < n then Drawn(Zeros(c.W), room + p) else Free
    decreases n
  {
    if n == 0 {
      s := FillTable(c, room);
    } else {
      var s0 := AllDraw(c, room, n - 1);
      s := Step(c, s0, Draw(n - 1, Zeros(c.W)));
    }
  }

  lemma LookupOverflows(c: Setup, s: Queue, p: nat)
    requires Proper(c) && Fits(c, s) && |s.table| == c.start && p < c.k && s.ps[p].Drawn?
    requires Number(c, s.ps[p].t) == 2 * c.start
    ensures DoLookup(c, s, p).fault
  {
    assert Extend(2 * c.start, 2 * c.start) == 2 * c.start;
    assert |Grown(s.table, 2 * c.start)| == 2 * c.start;
  }

  lemma TwiceTheTable(c: Setup, room: nat)
    requires Proper(c) && room == c.start * c.M
    ensures Number(c, room + room) == 2 * c.start
  {
    AddBlocks(0, c.M, c.start);
    AddBlocks(room, c.M, c.start);
  }

  /** One producer more than start * M: the look-up of the last ticket wants page
      2 * start of a table that has just been made 2 * start entries long. */
  lemma ManyProducersOverflow(c: Setup, room: nat) returns (s: Queue)
    requires Proper(c) && room == c.start * c.M && c.k > room
    ensures Reached(c, s) && s.fault
  {
    var s0 := AllDraw(c, room, room + 1);
    TwiceTheTable(c, room);
    LookupOverflows(c, s0, room);
    s := Step(c, s0, Lookup(room));
  }

  /** Main theorem: no look-up ever leaves the page table iff at most start * M producers
      share the queue. */
  lemma NoOverflowIff(c: Setup)
    requires Proper(c)
    ensures (forall s :: Reached(c, s) ==> !s.fault) <==> c.k <= c.start * c.M
  {
    if c.k <= c.start * c.M {
      forall s | Reached(c, s) ensures !s.fault {
        var run: seq<Queue> :| IsRun(c, run) && run[|run| - 1] == s;
        InvAt(c, run, |run| - 1);
      }
    } else {
      MulMono(c.start, c.M);
      var s := ManyProducersOverflow(c, c.start * c.M);
    }
  }

  /** Left alone, `get` returns true for a position exactly when it is readable. */
  lemma GetSucceedsIff(c: Setup, s: Queue, pos: nat)
    requires Proper(c) && Inv(c, s) && s.reader.Asking?
    ensures Make(c, s, Get(pos)).reader == if pos < s.written then Finding(pos) else Asking
    ensures pos < s.written ==>
      var found := DoFind(c, Make(c, s, Get(pos)));
      && !found.fault && Fits(c, found) && found.reader.Testing?
      && (DoRead(c, found).reader.Copying? <==> Readable(s, pos))
  {
    if pos < s.written {
      var s1 := Make(c, s, Get(pos));
      ReadInv(c, s, Get(pos));
      ReaderNeverOverflows(c, s1);
      GetPageInv(c, s1, Number(c, pos));
      FindInv(c, s1);
      TestIsExact(c, DoFind(c, s1));
      assert Up(DoFind(c, s1), pos) <==> Up(s, pos);
    }
  }

  /** Under that bound a position that is readable at some moment of a run is readable, with
      the same message, at every later one. */
  lemma {:induction false} ReadableForEver(c: Setup, run: seq<Queue>, i: nat, j: nat, pos: nat)
    requires Proper(c) && IsRun(c, run) && c.k <= c.start * c.M && i <= j < |run| && Readable(run[i], pos)
    ensures Readable(run[j], pos) && run[j].log[pos] == run[i].log[pos]
    decreases j
  {
    hide PagesOk, WriterOk, ReaderOk, AnswersOk, Readable, DoLookup, DoStore, DoFind, DoRead;
    if i < j {
      ReadableForEver(c, run, i, j - 1, pos);
      InvAt(c, run, j - 1);
      assert StepAt(c, run, j - 1);
      var m :| Can(c, run[j - 1], m) && run[j] == Make(c, run[j - 1], m);
      StaysReadable(c, run[j - 1], m, pos);
    }
  }

  /** Wherever a `get` of r's position stands, its next step is on the way to returning true
      with r's message: the position is not refused, its page is found, its flag is up, and
      each word copied is r's. */
  ghost predicate AnswersAgain(c: Setup, s: Queue, r: Reading)
    requires Proper(c) && Fits(c, s)
  {
    && |r.msg| == c.W
    && (s.reader.Asking? ==> Make(c, s, Get(r.pos)).reader == Finding(r.pos))
    && (s.reader == Finding(r.pos) ==> !DoFind(c, s).fault && DoFind(c, s).reader.Testing? && DoFind(c, s).reader.pos == r.pos)
    && (s.reader.Testing? && s.reader.pos == r.pos ==> DoRead(c, s).reader == Copying(r.pos, s.reader.page, []))
    && (s.reader.Copying? && s.reader.pos == r.pos ==>
          var n := |s.reader.buf|;
          && n <= c.W && s.reader.buf == r.msg[..n]
          && (n < c.W ==> DoRead(c, s).reader == s.reader.(buf := r.msg[..n + 1]))
          && (n == c.W ==> Make(c, s, Answer).answers == s.answers + [r]))
  }

  /** A `get` that has returned true does so for ever: after any further steps of any thread,
      `get` of that position returns true with the same message. */
  lemma AnsweredForEver(c: Setup, run: seq<Queue>, i: nat, j: nat, r: Reading)
    requires Proper(c) && IsRun(c, run) && c.k <= c.start * c.M && i <= j < |run| && r in run[i].answers
    ensures Fits(c, run[j]) && AnswersAgain(c, run[j], r)
  {
    InvAt(c, run, i);
    InvAt(c, run, j);
    ReadableForEver(c, run, i, j, r.pos);
    ReadableAnswers(c, run[j], r);
  }

  lemma ReadableAnswers(c: Setup, s: Queue, r: Reading)
    requires Proper(c) && Inv(c, s) && Readable(s, r.pos) && s.log[r.pos].msg == r.msg
    ensures AnswersAgain(c, s, r)
  {
    if s.reader.Finding? {
      ReaderNeverOverflows(c, s);
      GetPageInv(c, s, Number(c, s.reader.pos));
    }
    if s.reader.Testing? || s.reader.Copying? {
      assert SlotOk(c, s, s.reader.page, s.reader.pos);
    }
    if s.reader.Copying? && s.reader.pos == r.pos {
      var n := |s.reader.buf|;
      assert r.msg[..c.W] == r.msg;
      assert n < c.W ==> r.msg[..n + 1] == r.msg[..n] + [r.msg[n]];
    }
  }

  /** Main theorem: under that bound, in every reachable state, all answers `get` has given
      are the messages of the tickets at those positions; completed plus running pushes
      account for every ticket. */
  lemma AnswersAreRight(c: Setup, s: Queue)
    requires Proper(c) && Reached(c, s) && c.k <= c.start * c.M
    ensures s.written + |Busy(s)| == s.post == |s.log|
    ensures forall r :: r in s.answers ==> r.pos < s.post && s.log[r.pos].msg == r.msg
  {
    var run: seq<Queue> :| IsRun(c, run) && run[|run| - 1] == s;
    InvAt(c, run, |run| - 1);
  }
}
