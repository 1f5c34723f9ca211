/** `srt_queue` as a class over a circular table of page arrays (base/src/mqueue.h),
    used from one thread: it refines a bounded FIFO queue. */
module SrtQueues {
  import opened Arith
  import opened Messages
  import SrtProtocol
  import SrtAdmission

  class SrtQueue<T> {
    const pageMsgCount: nat
    const pageIndexCount: nat
    const zero: T
    var pageIndexes: array<array?<Message<T>>>
    var postIndex: nat
    var getIndex: nat
    ghost var Contents: seq<T>
    ghost var Repr: set<object>

    function Page(t: nat): nat
      requires pageMsgCount > 0
    { Quot(t, pageMsgCount) }

    function Entry(t: nat): (e: nat)
      requires pageMsgCount > 0 && pageIndexCount > 0
      ensures e < pageIndexCount
    {
      QuotRem(Page(t), pageIndexCount);
      Rem(Page(t), pageIndexCount)
    }

    function Offset(t: nat): (j: nat)
      requires pageMsgCount > 0
      ensures j < pageMsgCount
    {
      QuotRem(t, pageMsgCount);
      Rem(t, pageMsgCount)
    }

    function Capacity(): int {
      (pageIndexCount - 1) * pageMsgCount
    }

    ghost predicate Layout()
      reads this, Repr
    {
      && this in Repr && pageIndexes in Repr
      && pageMsgCount >= 1 && pageIndexCount >= 2 && pageIndexes.Length == pageIndexCount
      && (forall e :: 0 <= e < pageIndexCount && pageIndexes[e] != null ==>
            pageIndexes[e] in Repr && pageIndexes[e].Length == pageMsgCount)
      && (forall e, e' :: 0 <= e < e' < pageIndexCount && pageIndexes[e] != null ==> pageIndexes[e] != pageIndexes[e'])
    }

    /** t lies on one of the pages the table stands for at this moment. */
    predicate Live(t: nat)
      reads this
      requires pageMsgCount > 0
    {
      Page(getIndex) <= Page(t) < Page(getIndex) + pageIndexCount
    }

    /** A slot is flagged iff its ticket was pushed, and unread tickets hold the contents. */
    ghost predicate TicketOk(t: nat)
      reads this, Repr
      requires Layout()
    {
      var page := pageIndexes[Entry(t)];
      && (Live(t) && page != null ==> (page[Offset(t)].flag == 1 <==> t < postIndex))
      && (Live(t) && t < postIndex ==> page != null)
      && (getIndex <= t < postIndex && postIndex == getIndex + |Contents| ==>
            page != null && page[Offset(t)].msg == Contents[t - getIndex])
    }

    ghost predicate Valid()
      reads this, Repr
      ensures Valid() ==> this in Repr
    {
      && Layout()
      && postIndex == getIndex + |Contents|
      && |Contents| <= Capacity()
      && forall t: nat :: TicketOk(t)
    }

    constructor (pageMsgCount: nat, pageIndexCount: nat, zero: T)
      requires pageMsgCount >= 1 && pageIndexCount >= 2
      ensures Valid() && fresh(Repr)
      ensures this.pageMsgCount == pageMsgCount && this.pageIndexCount == pageIndexCount
      ensures Contents == []
    {
      this.pageMsgCount, this.pageIndexCount, this.zero := pageMsgCount, pageIndexCount, zero;
      var table := new array?<Message<T>>[pageIndexCount](_ => null);
      var first := new Message<T>[pageMsgCount](_ => Message(zero, 0));
      table[0] := first;
      pageIndexes := table;
      postIndex, getIndex := 0, 0;
      Contents := [];
      Repr := {this, table, first};
      new;
      MulMono(pageIndexCount - 1, pageMsgCount);
    }

    /** Tickets up to a full queue past the consumer are live. */
    lemma LiveUpTo(t: nat)
      requires Layout() && getIndex <= t <= getIndex + Capacity()
      ensures Live(t)
    {
      AddBlocks(getIndex, pageMsgCount, pageIndexCount - 1);
      QuotMono(getIndex, t, pageMsgCount);
      QuotMono(t, getIndex + (pageIndexCount - 1) * pageMsgCount, pageMsgCount);
    }

    /** Live tickets share a slot only if they are the same ticket. */
    lemma OwnSlot(t: nat, u: nat)
      requires Layout() && Live(t) && Live(u) && Entry(t) == Entry(u) && Offset(t) == Offset(u)
      ensures t == u
    {
      WindowUnique(Page(getIndex), Page(t), Page(u), pageIndexCount);
      SameCell(t, u, pageMsgCount);
    }

    /** `get_msg_page`: the page of a live ticket, allocated on first use. */
    method GetPage(t: nat) returns (page: array<Message<T>>)
      requires Valid() && Live(t)
      modifies Repr
      ensures Valid() && fresh(Repr - old(Repr))
      ensures Contents == old(Contents) && postIndex == old(postIndex) && getIndex == old(getIndex)
      ensures pageIndexes == old(pageIndexes) && page == pageIndexes[Entry(t)]
      ensures var was := old(pageIndexes[Entry(t)]);
        if was == null then forall j :: 0 <= j < page.Length ==> page[j] == Message(zero, 0)
        else page == was && page[..] == old(pageIndexes[Entry(t)][..])
    {
      var e := Entry(t);
      if pageIndexes[e] == null {
        var blank := Message(zero, 0);
        var added := new Message<T>[pageMsgCount](_ => blank);
        pageIndexes[e] := added;
        Repr := Repr + {added};
        forall u: nat ensures TicketOk(u) {
          assert old(TicketOk(u));
        }
      }
      page := pageIndexes[e];
    }

    /** Pushes m unless exactly `Capacity()` messages are held. */
    method Push(m: T) returns (ok: bool)
      requires Valid()
      modifies Repr
      ensures Valid() && fresh(Repr - old(Repr))
      ensures ok <==> |old(Contents)| < Capacity()
      ensures Contents == if ok then old(Contents) + [m] else old(Contents)
    {
      hide Quot, Rem;
      SrtAdmission.FullIsLimit(SrtProtocol.Config(pageMsgCount, pageIndexCount, 0, 0), postIndex, getIndex);
      if (postIndex - getIndex) / pageMsgCount >= pageIndexCount - 1 {
        return false;
      }
      var t := postIndex;
      LiveUpTo(t);
      var page := GetPage(t);
      label Found:
      var j := Offset(t);
      postIndex := postIndex + 1;
      page[j] := page[j].(msg := m);
      page[j] := page[j].(flag := 1);
      Contents := Contents + [m];
      forall u: nat ensures TicketOk(u) {
        assert old@Found(TicketOk(u));
        if Live(u) && Entry(u) == Entry(t) && Offset(u) == j {
          OwnSlot(t, u);
        }
        if getIndex <= u < postIndex {
          LiveUpTo(u);
        }
      }
      return true;
    }

    /** Pops the oldest message, if there is one. */
    method Pop() returns (ok: bool, m: T)
      requires Valid()
      modifies Repr
      ensures Valid() && fresh(Repr - old(Repr))
      ensures ok <==> old(Contents) != []
      ensures ok ==> m == old(Contents)[0] && Contents == old(Contents)[1..]
      ensures !ok ==> Contents == old(Contents)
    {
      hide Quot, Rem;
      m := zero;
      if getIndex >= postIndex {
        return false, m;
      }
      var t := getIndex;
      LiveUpTo(t);
      assert TicketOk(t);
      var page := GetPage(t);
      label Found:
      assert TicketOk(t);
      if page[Offset(t)].flag == 1 {
        m := page[Offset(t)].msg;
        if Offset(t) == pageMsgCount - 1 {
          pageIndexes[Entry(t)] := null;
        }
        getIndex := getIndex + 1;
        Contents := Contents[1..];
        QuotSucc(t, pageMsgCount);
        forall u: nat ensures TicketOk(u) {
          assert old@Found(TicketOk(u));
          KeptByPop(t, u);
          if u < postIndex {
            WithinLap(t, u);
          }
          if getIndex <= u < postIndex {
            LiveUpTo(u);
          }
        }
        return true, m;
      }
      return false, m;
    }

    lemma WithinLap(t: nat, u: nat)
      requires Layout() && u <= t + Capacity()
      ensures Page(u) < Page(t) + pageIndexCount
    {
      AddBlocks(t, pageMsgCount, pageIndexCount - 1);
      QuotMono(u, t + (pageIndexCount - 1) * pageMsgCount, pageMsgCount);
    }

    /** Moving past ticket t changes which page a table entry stands for only at the
        entry of t's own page, and only when t was that page's last ticket. */
    lemma KeptByPop(t: nat, u: nat)
      requires Layout() && getIndex == t + 1
      ensures Live(u) && Entry(u) == Entry(t) && Offset(t) == pageMsgCount - 1 ==>
                Page(u) == Page(t) + pageIndexCount
      ensures Offset(t) != pageMsgCount - 1 ==> Page(getIndex) == Page(t)
      ensures Page(u) == Page(t) + pageIndexCount ==> Entry(u) == Entry(t)
    {
      QuotSucc(t, pageMsgCount);
      AddBlocks(Page(t), pageIndexCount, 1);
      if Live(u) && Entry(u) == Entry(t) && Offset(t) == pageMsgCount - 1 {
        WindowUnique(Page(getIndex), Page(t) + pageIndexCount, Page(u), pageIndexCount);
      }
    }

    method Size() returns (n: nat)
      requires Valid()
      ensures n == |Contents|
    {
      n := postIndex - getIndex;
    }
  }
}
