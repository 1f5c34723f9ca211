/** `drb_queue` as a class over a growing table of page arrays (base/src/mqueue.h), used
    from one thread: it refines an append-only sequence. */
module DrbQueues {
  import opened Arith
  import opened Messages
  import DrbProtocol

  function Pow2(n: nat): (r: nat)
    ensures r >= 1
  {
    if n == 0 then 1 else 2 * Pow2(n - 1)
  }

  /** The constructor's choice of page size: the least power of two from 2 up that is
      not below the requested count.  The source shifts a 32-bit int. */
  method PageBits(requested: int) returns (bits: nat)
    requires requested <= 0x4000_0000
    ensures LeastBits(bits, requested) && bits <= 30
  {
    bits := 1;
    assert Pow2(30) == 0x4000_0000 by { Pow2At30(); }
    while Pow2(bits) < requested
      invariant 1 <= bits <= 30
      invariant forall b :: 1 <= b < bits ==> Pow2(b) < requested
      decreases 30 - bits
    {
      bits := bits + 1;
    }
  }

  predicate LeastBits(bits: nat, requested: int) {
    bits >= 1 && Pow2(bits) >= requested && forall b :: 1 <= b < bits ==> Pow2(b) < requested
  }

  lemma Pow2At30()
    ensures Pow2(30) == 0x4000_0000
  {
    assert Pow2(10) == 1024;
    assert Pow2(20) == 1024 * 1024;
  }

  class DrbQueue<T> {
    const pageMsgCount: nat
    const zero: T
    var pageIndexes: array<array?<Message<T>>>
    var postIndex: nat
    var writeIndex: nat
    ghost var Contents: seq<T>
    ghost var Repr: set<object>

    function Page(t: nat): nat
      requires pageMsgCount > 0
    { Quot(t, pageMsgCount) }

    function Offset(t: nat): (j: nat)
      requires pageMsgCount > 0
      ensures j < pageMsgCount
    {
      QuotRem(t, pageMsgCount);
      Rem(t, pageMsgCount)
    }

    ghost predicate Layout()
      reads this, Repr
    {
      && this in Repr && pageIndexes in Repr && pageMsgCount >= 1 && pageIndexes.Length >= 1
      && (forall e :: 0 <= e < pageIndexes.Length && pageIndexes[e] != null ==>
            pageIndexes[e] in Repr && pageIndexes[e].Length == pageMsgCount)
      && (forall e, e' :: 0 <= e < e' < pageIndexes.Length && pageIndexes[e] != null ==> pageIndexes[e] != pageIndexes[e'])
    }

    ghost predicate TicketOk(t: nat)
      reads this, Repr
      requires Layout()
    {
      t < |Contents| ==>
        && Page(t) < pageIndexes.Length && pageIndexes[Page(t)] != null
        && pageIndexes[Page(t)][Offset(t)] == Message(Contents[t], 1)
    }

    ghost predicate Valid()
      reads this, Repr
      ensures Valid() ==> this in Repr
    {
      && Layout() && postIndex == writeIndex == |Contents|
      && forall t: nat :: TicketOk(t)
    }

    constructor (requested: int, initPages: nat, zero: T)
      requires requested <= 0x4000_0000 && initPages >= 1
      ensures Valid() && fresh(Repr) && Contents == []
      ensures exists bits: nat :: LeastBits(bits, requested) && pageMsgCount == Pow2(bits)
      ensures pageIndexes.Length == initPages
    {
      var bits := PageBits(requested);
      this.pageMsgCount, this.zero := Pow2(bits), zero;
      var table := new array?<Message<T>>[initPages](_ => null);
      var first := new Message<T>[Pow2(bits)](_ => Message(zero, 0));
      table[0] := first;
      pageIndexes := table;
      postIndex, writeIndex := 0, 0;
      Contents := [];
      Repr := {this, table, first};
      new;
      assert LeastBits(bits, requested);
    }

    /** Makes room for page n in the table, as `get_msg_page` does: the new size is found by
        doubling, the old entries are copied, and nothing that was stored is lost. */
    method Extend(n: nat)
      requires Valid() && n >= pageIndexes.Length
      modifies this
      ensures Valid() && fresh(Repr - old(Repr))
      ensures Contents == old(Contents) && postIndex == old(postIndex) && writeIndex == old(writeIndex)
      ensures pageIndexes.Length == DrbProtocol.Extend(2 * old(pageIndexes.Length), n)
      ensures pageIndexes[..old(pageIndexes.Length)] == old(pageIndexes[..])
      ensures forall e :: old(pageIndexes.Length) <= e < pageIndexes.Length ==> pageIndexes[e] == null
    {
      var count := pageIndexes.Length;
      var size := 2 * count;
      while n > size
        invariant size >= 2 * count
        invariant DrbProtocol.Extend(size, n) == DrbProtocol.Extend(2 * count, n)
        decreases n - size
      {
        size := 2 * size;
      }
      var bigger := new array?<Message<T>>[size](_ => null);
      var i := 0;
      while i < count
        modifies bigger
        invariant 0 <= i <= count
        invariant forall e :: 0 <= e < i ==> bigger[e] == pageIndexes[e]
        invariant forall e :: i <= e < size ==> bigger[e] == null
      {
        bigger[i] := pageIndexes[i];
        i := i + 1;
      }
      pageIndexes := bigger;
      Repr := Repr + {bigger};
      forall t: nat ensures TicketOk(t) { assert old(TicketOk(t)); }
    }

    /** The page of ticket t. From one thread, t is at most the next ticket, so one
        doubling makes room. */
    method GetPage(t: nat) returns (page: array<Message<T>>)
      requires Valid() && t <= |Contents|
      modifies Repr
      ensures Valid() && fresh(Repr - old(Repr))
      ensures Contents == old(Contents) && postIndex == old(postIndex) && writeIndex == old(writeIndex)
      ensures Page(t) < pageIndexes.Length <= 2 * old(pageIndexes.Length) && page == pageIndexes[Page(t)]
    {
      var n := Page(t);
      NextPageIsNear(t);
      if n >= pageIndexes.Length {
        Extend(n);
      }
      if pageIndexes[n] == null {
        var blank := Message(zero, 0);
        var added := new Message<T>[pageMsgCount](_ => blank);
        label Before:
        pageIndexes[n] := added;
        Repr := Repr + {added};
        forall u: nat ensures TicketOk(u) { assert old@Before(TicketOk(u)); }
      }
      page := pageIndexes[n];
    }

    lemma NextPageIsNear(t: nat)
      requires Valid() && t <= |Contents|
      ensures Page(t) <= pageIndexes.Length
    {
      if t > 0 {
        assert TicketOk(t - 1);
        QuotSucc(t - 1, pageMsgCount);
      }
    }

    method Push(m: T) returns (ok: bool)
      requires Valid()
      modifies Repr
      ensures Valid() && fresh(Repr - old(Repr))
      ensures ok && Contents == old(Contents) + [m]
    {
      var t := postIndex;
      var page := GetPage(t);
      label Found:
      var j := Offset(t);
      postIndex := postIndex + 1;
      page[j] := page[j].(msg := m);
      page[j] := page[j].(flag := 1);
      writeIndex := writeIndex + 1;
      Contents := Contents + [m];
      forall u: nat ensures TicketOk(u) {
        assert old@Found(TicketOk(u));
        if Page(u) == Page(t) && Offset(u) == j {
          SameCell(t, u, pageMsgCount);
        }
      }
      return true;
    }

    /** The message at a position, for every position below the size. */
    method Get(pos: nat) returns (ok: bool, m: T)
      requires Valid()
      modifies Repr
      ensures Valid() && fresh(Repr - old(Repr)) && Contents == old(Contents)
      ensures ok <==> pos < |Contents|
      ensures ok ==> m == Contents[pos]
    {
      m := zero;
      if writeIndex <= pos {
        return false, m;
      }
      var page := GetPage(pos);
      assert TicketOk(pos);
      if page[Offset(pos)].flag == 1 {
        return true, page[Offset(pos)].msg;
      }
      return false, m;
    }
  }
}
