/** The send side of `clientCell`: a ring of partially sent payloads, filled by
    `handleSend`, emptied by `doSend` and by the destructor
    (base/src/tcp_server/cell_manager.cpp, base/src/tcp_server/client_cell.cpp). */
module SendModel {
  import opened Framing

  const MAX_SEND_TIMES: nat := 1000

  /** What `write` returns: EINTR or EAGAIN, another error, or a byte count, of which at
      most what was asked for counts. */
  datatype WriteResult = Again | Broken | Wrote(n: nat)

  type Results = nat -> WriteResult

  /** Unsent parts of the queued payloads, oldest first; what went out; writes made so far. */
  datatype Progress = Progress(queue: seq<seq<Byte>>, wire: seq<Byte>, writes: nat)

  function Flatten(queue: seq<seq<Byte>>): seq<Byte> {
    if queue == [] then [] else queue[0] + Flatten(queue[1..])
  }

  /** `doSend` with at most `budget` turns left. */
  function Send(p: Progress, results: Results, budget: nat): Progress
    decreases budget
  {
    if budget == 0 || p.queue == [] then p
    else
      var head, next := p.queue[0], p.(writes := p.writes + 1);
      match results(p.writes)
      case Again => Send(next, results, budget - 1)
      case Broken => next
      case Wrote(k) =>
        var n := if k <= |head| then k else |head|;
        var sent := next.(wire := p.wire + head[..n]);
        if n == 0 then next
        else if n < |head| then sent.(queue := [head[n..]] + p.queue[1..])
        else Send(sent.(queue := p.queue[1..]), results, budget - 1)
  }

  lemma {:induction false} FlattenAppend(a: seq<seq<Byte>>, b: seq<seq<Byte>>)
    ensures Flatten(a + b) == Flatten(a) + Flatten(b)
    decreases |a|
  {
    if a == [] {
      assert a + b == b;
    } else {
      FlattenAppend(a[1..], b);
      assert (a + b)[1..] == a[1..] + b;
    }
  }

  /** One turn of the loop. */
  function Turn(p: Progress, results: Results): (q: Progress)
    requires p.queue != []
  {
    var head, r := p.queue[0], results(p.writes);
    if r.Again? || r.Broken? || r.n == 0 || head == [] then p.(writes := p.writes + 1)
    else if r.n < |head| then Progress([head[r.n..]] + p.queue[1..], p.wire + head[..r.n], p.writes + 1)
    else Progress(p.queue[1..], p.wire + head, p.writes + 1)
  }

  predicate GoesOn(p: Progress, results: Results)
    requires p.queue != []
  {
    var head, r := p.queue[0], results(p.writes);
    r.Again? || (r.Wrote? && head != [] && r.n >= |head|)
  }

  lemma SendByTurns(p: Progress, results: Results, budget: nat)
    requires budget > 0 && p.queue != []
    ensures Send(p, results, budget) ==
            if GoesOn(p, results) then Send(Turn(p, results), results, budget - 1) else Turn(p, results)
  {
    var head := p.queue[0];
    assert head[..|head|] == head && head[..0] == [] && p.wire + [] == p.wire;
  }

  /** What went out before does not matter for a turn. */
  lemma TurnAppends(p: Progress, results: Results)
    requires p.queue != []
    ensures var start := p.(wire := []);
      && Turn(p, results) == Turn(start, results).(wire := p.wire + Turn(start, results).wire)
      && GoesOn(p, results) == GoesOn(start, results)
  {
    assert p.wire + [] == p.wire;
    assert p.wire + ([] + p.queue[0]) == p.wire + p.queue[0];
  }

  lemma TurnConserves(p: Progress, results: Results)
    requires p.queue != []
    ensures var q := Turn(p, results);
      q.wire + Flatten(q.queue) == p.wire + Flatten(p.queue) && p.wire <= q.wire && Shrunk(p.queue, q.queue)
  {
    var head, tail, r := p.queue[0], p.queue[1..], results(p.writes);
    if r.Wrote? && 0 < r.n < |head| {
      CutPayload(p.wire, head, r.n, tail);
    }
  }

  lemma CutPayload(wire: seq<Byte>, head: seq<Byte>, n: nat, tail: seq<seq<Byte>>)
    requires n <= |head|
    ensures wire + head[..n] + Flatten([head[n..]] + tail) == wire + Flatten([head] + tail)
  {
    assert ([head[n..]] + tail)[1..] == tail && ([head] + tail)[1..] == tail;
    assert head[..n] + head[n..] == head;
    assert wire + head[..n] + (head[n..] + Flatten(tail)) == wire + (head[..n] + head[n..] + Flatten(tail));
  }

  /** q is a suffix of p, possibly with its first payload cut short at the front. */
  predicate Shrunk(p: seq<seq<Byte>>, q: seq<seq<Byte>>) {
    && |q| <= |p|
    && (q != [] ==> |q[0]| <= |p[|p| - |q|]|)
    && forall i :: 1 <= i < |q| ==> q[i] == p[|p| - |q| + i]
  }

  /** Whatever `write` does, no byte is lost, repeated or reordered, at most `budget` writes
      are made, and what remains queued is a suffix, only its first payload shortened. */
  lemma {:induction false} SendConserves(p: Progress, results: Results, budget: nat)
    ensures var q := Send(p, results, budget);
      && q.wire + Flatten(q.queue) == p.wire + Flatten(p.queue) && p.wire <= q.wire
      && p.writes <= q.writes <= p.writes + budget
      && Shrunk(p.queue, q.queue)
    decreases budget
  {
    hide Turn, GoesOn, Send;
    if budget == 0 || p.queue == [] {
      SendIdle(p, results, budget);
    } else {
      SendByTurns(p, results, budget);
      TurnConserves(p, results);
      TurnCounts(p, results);
      if GoesOn(p, results) {
        SendConserves(Turn(p, results), results, budget - 1);
      }
    }
  }

  lemma SendIdle(p: Progress, results: Results, budget: nat)
    requires budget == 0 || p.queue == []
    ensures Send(p, results, budget) == p
  {
  }

  lemma TurnCounts(p: Progress, results: Results)
    requires p.queue != []
    ensures Turn(p, results).writes == p.writes + 1
  {
  }

  /** A payload of length zero at the head is never sent: it blocks everything behind it,
      whatever the socket does and however often `doSend` runs. */
  lemma {:induction false} EmptyPayloadBlocks(p: Progress, results: Results, budget: nat)
    requires p.queue != [] && p.queue[0] == []
    ensures Send(p, results, budget).queue == p.queue && Send(p, results, budget).wire == p.wire
    decreases budget
  {
    if budget > 0 && results(p.writes).Again? {
      EmptyPayloadBlocks(p.(writes := p.writes + 1), results, budget - 1);
    }
  }

  /** Sending takes non-empty payloads away and never leaves an empty remainder. */
  lemma {:induction false} SendKeepsEmpty(p: Progress, results: Results, budget: nat)
    ensures [] in Send(p, results, budget).queue <==> [] in p.queue
    decreases budget
  {
    hide Send;
    if budget == 0 || p.queue == [] {
      SendIdle(p, results, budget);
    } else {
      SendByTurns(p, results, budget);
      TurnKeepsEmpty(p, results);
      if GoesOn(p, results) {
        SendKeepsEmpty(Turn(p, results), results, budget - 1);
      }
    }
  }

  lemma TurnKeepsEmpty(p: Progress, results: Results)
    requires p.queue != []
    ensures [] in Turn(p, results).queue <==> [] in p.queue
  {
    var head, tail := p.queue[0], p.queue[1..];
    assert p.queue == [head] + tail;
  }

  /** How many payloads stand before the first empty one. */
  function Sendable(queue: seq<seq<Byte>>): (n: nat)
    ensures n <= |queue| && (n < |queue| ==> queue[n] == [])
    ensures forall i :: 0 <= i < n ==> queue[i] != []
  {
    if queue == [] || queue[0] == [] then 0 else 1 + Sendable(queue[1..])
  }

  /** How many of the n results from number `from` on are an answer: neither EINTR nor EAGAIN. */
  function Answered(results: Results, from: nat, n: nat): (m: nat)
    ensures m <= n
    decreases n
  {
    if n == 0 then 0 else (if results(from).Again? then 0 else 1) + Answered(results, from + 1, n - 1)
  }

  /** A socket that, whenever it answers, takes the whole of any of these payloads. */
  ghost predicate Willing(queue: seq<seq<Byte>>, results: Results) {
    forall i, j :: 0 <= i < |queue| && !results(j).Again? ==> results(j).Wrote? && results(j).n >= |queue[i]|
  }

  /** Such a socket gets exactly the payloads before the first empty one, as far as it
      answers; each EINTR or EAGAIN costs one turn and nothing else. */
  lemma {:induction false} WillingSocketTakes(p: Progress, results: Results, budget: nat)
    requires Willing(p.queue, results)
    ensures var n, m := Sendable(p.queue), Answered(results, p.writes, budget);
      Send(p, results, budget).queue == p.queue[if n <= m then n else m..]
    decreases budget
  {
    hide Send;
    if budget == 0 || p.queue == [] {
      SendIdle(p, results, budget);
    } else if p.queue[0] == [] {
      EmptyPayloadBlocks(p, results, budget);
    } else {
      SendByTurns(p, results, budget);
      WillingSocketTakes(Turn(p, results), results, budget - 1);
    }
  }

  /** If it answers often enough within the turns allowed, the queue drains exactly when no
      queued payload is empty. */
  lemma DrainsIff(p: Progress, results: Results, budget: nat)
    requires Willing(p.queue, results) && Answered(results, p.writes, budget) >= |p.queue|
    ensures Send(p, results, budget).queue == [] <==> forall i :: 0 <= i < |p.queue| ==> p.queue[i] != []
  {
    WillingSocketTakes(p, results, budget);
    var n := Sendable(p.queue);
    assert n < |p.queue| ==> p.queue[n] == [];
  }

  // ---------------------------------------------------------------- the exact outcome

  /** Result j, counted from number `from`, is EINTR or EAGAIN, or takes the whole of the
      payload whose turn it is: the one after as many as have been taken before. */
  predicate Passes(queue: seq<seq<Byte>>, results: Results, from: nat, j: nat) {
    var t, r := Answered(results, from, j), results(from + j);
    t < |queue| && (r.Again? || (r.Wrote? && queue[t] != [] && r.n >= |queue[t]|))
  }

  /** While results pass, the loop goes on: after k of them, the payloads taken are gone, and
      written whole. */
  lemma {:induction false} GoesThrough(p: Progress, results: Results, budget: nat, k: nat)
    requires k <= budget && forall j :: 0 <= j < k ==> Passes(p.queue, results, p.writes, j)
    ensures var t := Answered(results, p.writes, k);
      && t <= |p.queue|
      && Send(p, results, budget) ==
         Send(Progress(p.queue[t..], p.wire + Flatten(p.queue[..t]), p.writes + k), results, budget - k)
    decreases k
  {
    hide Send, Turn, GoesOn, Passes, Flatten;
    if k == 0 {
      assert p.queue[0..] == p.queue && p.wire + Flatten(p.queue[..0]) == p.wire by { NothingTaken(p); }
    } else {
      assert Passes(p.queue, results, p.writes, 0);
      OnePasses(p, results);
      SendByTurns(p, results, budget);
      var q := Turn(p, results);
      forall j | 0 <= j < k - 1 ensures Passes(q.queue, results, q.writes, j) {
        PassesLater(p, results, j);
      }
      GoesThrough(q, results, budget - 1, k - 1);
      if !results(p.writes).Again? {
        TakenBefore(p, Answered(results, q.writes, k - 1));
      }
    }
  }

  lemma NothingTaken(p: Progress)
    ensures p.wire + Flatten(p.queue[..0]) == p.wire
  {
    assert p.queue[..0] == [];
  }

  lemma OnePasses(p: Progress, results: Results)
    requires Passes(p.queue, results, p.writes, 0)
    ensures p.queue != [] && GoesOn(p, results)
    ensures Turn(p, results) == if results(p.writes).Again? then p.(writes := p.writes + 1)
                                else Progress(p.queue[1..], p.wire + p.queue[0], p.writes + 1)
  {
  }

  lemma PassesLater(p: Progress, results: Results, j: nat)
    requires p.queue != [] && Passes(p.queue, results, p.writes, j + 1)
    ensures Passes(if results(p.writes).Again? then p.queue else p.queue[1..], results, p.writes + 1, j)
  {
  }

  lemma TakenBefore(p: Progress, t: nat)
    requires 0 < |p.queue| && t < |p.queue|
    ensures p.queue[1..][t..] == p.queue[t + 1..]
    ensures p.wire + p.queue[0] + Flatten(p.queue[1..][..t]) == p.wire + Flatten(p.queue[..t + 1])
  {
    assert p.queue[..t + 1][1..] == p.queue[1..][..t];
    assert p.wire + p.queue[0] + Flatten(p.queue[1..][..t]) == p.wire + (p.queue[0] + Flatten(p.queue[1..][..t]));
  }

  /** Main theorem: the exact outcome of `doSend`. If the first result that neither is EINTR
      or EAGAIN nor takes a whole payload is number k, then exactly k + 1 writes are made; the
      payloads taken before went out whole, the one in turn as far as that result says, and
      the rest stays. */
  lemma StopsAt(p: Progress, results: Results, budget: nat, k: nat)
    requires k < budget && forall j :: 0 <= j < k ==> Passes(p.queue, results, p.writes, j)
    requires Answered(results, p.writes, k) < |p.queue| && !Passes(p.queue, results, p.writes, k)
    ensures var t, r := Answered(results, p.writes, k), results(p.writes + k);
      var head := p.queue[t];
      var n := if r.Wrote? && r.n <= |head| then r.n else 0;
      Send(p, results, budget) ==
      Progress([head[n..]] + p.queue[t + 1..], p.wire + Flatten(p.queue[..t]) + head[..n], p.writes + k + 1)
  {
    hide Send, Flatten, Answered;
    GoesThrough(p, results, budget, k);
    var t := Answered(results, p.writes, k);
    LastTurn(Progress(p.queue[t..], p.wire + Flatten(p.queue[..t]), p.writes + k), results, budget - k);
    assert p.queue[t..][1..] == p.queue[t + 1..];
  }

  /** A result that stops the loop. */
  lemma LastTurn(p: Progress, results: Results, budget: nat)
    requires budget > 0 && p.queue != [] && !GoesOn(p, results)
    ensures var head, r := p.queue[0], results(p.writes);
      var n := if r.Wrote? && r.n <= |head| then r.n else 0;
      Send(p, results, budget) == Progress([head[n..]] + p.queue[1..], p.wire + head[..n], p.writes + 1)
  {
    var head := p.queue[0];
    assert head[0..] == head && head[..0] == [] && p.wire + [] == p.wire;
    assert p.queue == [head] + p.queue[1..];
  }
}

module SendRings {
  import opened Framing
  import opened SendModel

  const SYSSENDBUF: nat := 1048576

  /** `sendCell`: the bytes, zero-terminated, and how many of them have been sent. */
  class SendCell {
    const ptr: seq<Byte>
    const size: nat
    var sendPos: nat

    constructor (bytes: seq<Byte>)
      ensures ptr == bytes + [0] && size == |bytes| && sendPos == 0
    {
      ptr, size, sendPos := bytes + [0], |bytes|, 0;
    }
  }

  class SendRing {
    const slots: array<SendCell?>
    var readPos: nat
    var writePos: nat
    ghost var Cells: seq<SendCell>
    ghost var Queue: seq<seq<Byte>>
    ghost var Freed: set<SendCell>

    function Next(i: nat): (j: nat)
      requires i < slots.Length
      ensures j == if i + 1 == slots.Length then 0 else i + 1
    {
      (i + 1) % slots.Length
    }

    /** Ring position of the k-th queued cell. */
    function At(k: nat): nat
      reads this
    {
      if readPos + k < slots.Length then readPos + k else readPos + k - slots.Length
    }

    ghost predicate CellOk(k: nat)
      reads this, slots, Cells
      requires k < |Cells| == |Queue| && At(k) < slots.Length
    {
      var cell := Cells[k];
      && slots[At(k)] == cell && cell !in Freed
      && cell.sendPos <= cell.size < |cell.ptr| && Queue[k] == cell.ptr[cell.sendPos..cell.size]
    }

    /** Queued cells are distinct, in their slots, and not freed. */
    ghost predicate Valid()
      reads this, slots, Cells
    {
      && slots.Length >= 2 && readPos < slots.Length && writePos < slots.Length
      && |Cells| == |Queue| < slots.Length && writePos == At(|Queue|)
      && (forall k :: 0 <= k < |Cells| ==> CellOk(k))
      && (forall k, l :: 0 <= k < l < |Cells| ==> Cells[k] != Cells[l])
    }

    constructor ()
      ensures Valid() && fresh(slots) && Queue == [] && Freed == {} && slots.Length == SYSSENDBUF
    {
      slots := new SendCell?[SYSSENDBUF](_ => null);
      readPos, writePos := 0, 0;
      Cells, Queue, Freed := [], [], {};
    }

    /** Whether anything is queued: the test `checkWrite` makes. */
    method IsPending() returns (r: bool)
      requires Valid()
      ensures r <==> Queue != []
    {
      r := writePos != readPos;
    }

    /** The ring part of `handleSend`: queues the payload's cell unless the ring is full,
        which it is with one slot to spare. */
    method Enqueue(cell: SendCell) returns (ok: bool)
      requires Valid() && cell !in Cells && cell !in Freed && cell.size < |cell.ptr| && cell.sendPos == 0
      modifies this, slots
      ensures Valid() && Freed == old(Freed)
      ensures ok <==> |old(Queue)| < slots.Length - 1
      ensures Queue == old(Queue) + if ok then [cell.ptr[..cell.size]] else []
      ensures Cells == old(Cells) + if ok then [cell] else []
    {
      if Next(writePos) == readPos {
        return false;
      }
      slots[writePos] := cell;
      writePos := Next(writePos);
      Queue := Queue + [cell.ptr[..cell.size]];
      Cells := Cells + [cell];
      forall k | 0 <= k < |Queue| ensures CellOk(k) {
        if k < |Queue| - 1 { assert old(CellOk(k)); }
      }
      return true;
    }

    /** Frees the head cell and steps over its slot, which becomes null. */
    method DropHead()
      requires Valid() && Queue != []
      modifies this, slots
      ensures Valid() && Queue == old(Queue)[1..] && Cells == old(Cells)[1..]
      ensures writePos == old(writePos)
      ensures old(Cells)[0] !in old(Freed) && Freed == old(Freed) + {old(Cells)[0]}
      ensures slots[old(readPos)] == null
    {
      assert CellOk(0);
      Freed := Freed + {Cells[0]};
      slots[readPos] := null;
      readPos := Next(readPos);
      Queue, Cells := Queue[1..], Cells[1..];
      forall k | 0 <= k < |Queue| ensures CellOk(k) {
        assert old(CellOk(k + 1)) && old(Cells[0] != Cells[k + 1]);
      }
    }

    /** A partial write moves the head cell's send position. */
    method Shorten(n: nat)
      requires Valid() && Queue != [] && n <= |Queue[0]|
      modifies this`Queue, Cells[0]
      ensures Valid() && Queue == [old(Queue)[0][n..]] + old(Queue)[1..]
    {
      assert CellOk(0);
      var cell := slots[readPos];
      cell.sendPos := cell.sendPos + n;
      Queue := [Queue[0][n..]] + Queue[1..];
      forall k | 0 <= k < |Queue| ensures CellOk(k) { assert old(CellOk(k)); }
    }

    /** The cells that left the queue, oldest first, are exactly the ones freed. */
    ghost predicate FreedPrefix(cells: seq<SendCell>, freed: set<SendCell>)
      reads this
    {
      && |Cells| <= |cells| && Cells == cells[|cells| - |Cells|..]
      && Freed == freed + (set k | 0 <= k < |cells| - |Cells| :: cells[k])
    }

    /** One `write` of the head cell's unsent bytes and what `doSend` makes of its result:
        the bytes that went out, and whether the loop goes on, which it does after EINTR and
        EAGAIN and after a payload that went out whole. */
    method WriteHead(results: Results, n: nat) returns (sent: seq<Byte>, goesOn: bool)
      requires Valid() && Queue != []
      modifies this, slots, Cells[0]
      ensures Valid() && FreedPrefix(old(Cells), old(Freed))
      ensures Progress(Queue, sent, n + 1) == Turn(Progress(old(Queue), [], n), results)
      ensures goesOn == GoesOn(Progress(old(Queue), [], n), results)
      ensures var head := old(Queue)[0];
        && sent <= head && |sent| == (if results(n).Wrote? && results(n).n <= |head| then results(n).n
                                      else if results(n).Wrote? then |head| else 0)
        && (goesOn <==> results(n).Again? || (sent == head && head != []))
        && Queue == (if sent == head && head != [] then [] else [head[|sent|..]]) + old(Queue)[1..]
    {
      hide Flatten;
      assert CellOk(0);
      var cell := slots[readPos];
      var want := cell.size - cell.sendPos;
      var r := results(n);
      match r {
        case Again => return [], true;
        case Broken => return [], false;
        case Wrote(k) =>
          var m := if k <= want then k else want;
          if m == 0 {
            return [], false;
          }
          sent := cell.ptr[cell.sendPos..cell.sendPos + m];
          assert sent == Queue[0][..m];
          if m < want {
            Shorten(m);
            return sent, false;
          }
          DropHead();
          return sent, true;
      }
    }

    /** `doSend`: at most 1000 writes, with the outcome of `SendModel.Send`. `n0` numbers the
        first write in the socket's results. */
    method DoSend(results: Results, n0: nat) returns (wire: seq<Byte>, writes: nat)
      requires Valid()
      modifies this, slots, Cells
      ensures Valid() && FreedPrefix(old(Cells), old(Freed))
      ensures Progress(Queue, wire, n0 + writes) == Send(Progress(old(Queue), [], n0), results, MAX_SEND_TIMES)
    {
      hide Send, Turn, GoesOn, CellOk;
      wire, writes := [], 0;
      var i := 0;
      ghost var cells0, freed0 := Cells, Freed;
      while i < MAX_SEND_TIMES
        invariant 0 <= i <= MAX_SEND_TIMES && Valid() && FreedPrefix(cells0, freed0)
        invariant Send(Progress(old(Queue), [], n0), results, MAX_SEND_TIMES) ==
                  Send(Progress(Queue, wire, n0 + writes), results, MAX_SEND_TIMES - i)
      {
        if writePos != readPos {
          ghost var p := Progress(Queue, wire, n0 + writes);
          SendByTurns(p, results, MAX_SEND_TIMES - i);
          TurnAppends(p, results);
          var sent, goesOn := WriteHead(results, n0 + writes);
          wire, writes := wire + sent, writes + 1;
          if !goesOn {
            return;
          }
        } else {
          SendIdle(Progress(Queue, wire, n0 + writes), results, MAX_SEND_TIMES - i);
          SendIdle(Progress(Queue, wire, n0 + writes), results, MAX_SEND_TIMES - i - 1);
        }
        i := i + 1;
      }
      SendIdle(Progress(Queue, wire, n0 + writes), results, 0);
    }

    /** The destructor's loop: it ends, and every cell still queued is freed. */
    method Destroy()
      requires Valid()
      modifies this, slots
      ensures Valid() && Queue == [] && FreedPrefix(old(Cells), old(Freed))
    {
      hide Flatten, Send;
      ghost var cells0, freed0 := Cells, Freed;
      while readPos != writePos
        invariant Valid() && FreedPrefix(cells0, freed0)
        decreases |Queue|
      {
        DropHead();
      }
    }
  }
}
