/** `send_cell`: packages (header and body in one buffer) in a ring addressed by two
    counters that only grow, read piecewise from the front; used from one thread
    (base/src/tcp_common/send_cell.cpp). */
module SendCells {
  import opened Arith
  import opened Framing
  import opened Messages
  import opened SendModel

  /** `send_cell_unit`. */
  class Unit {
    const ptr: seq<Byte>
    const size: nat
    var sendPos: nat
    var enableRead: bool

    /** The buffer is the least whole number of units that is longer than the package. */
    constructor (head: seq<Byte>, body: seq<Byte>, unitSize: nat)
      requires unitSize >= 1
      ensures size == |head| + |body| && sendPos == 0 && enableRead
      ensures size < |ptr| <= size + unitSize && |ptr| % unitSize == 0 && ptr[..size] == head + body
    {
      var bufSize := ((|head| + |body|) / unitSize + 1) * unitSize;
      RoundedUp(|head| + |body|, unitSize);
      var bytes := head + body;
      var p := new Byte[bufSize];
      forall i | 0 <= i < |bytes| {
        p[i] := bytes[i];
      }
      ptr, size, sendPos, enableRead := p[..], |bytes|, 0, true;
    }
  }

  lemma RoundedUp(n: nat, unitSize: nat)
    requires unitSize >= 1
    ensures n < (n / unitSize + 1) * unitSize <= n + unitSize
    ensures ((n / unitSize + 1) * unitSize) % unitSize == 0
  {
    var q := n / unitSize + 1;
    assert n == (n / unitSize) * unitSize + n % unitSize;
    assert q * unitSize == (n / unitSize) * unitSize + unitSize;
    UniqueDivMod(q * unitSize, unitSize, q, 0);
  }

  lemma CutHead(gone: seq<Byte>, queue: seq<seq<Byte>>)
    requires queue != []
    ensures gone + queue[0] + Flatten(queue[1..]) == gone + Flatten(queue)
  {
    assert gone + queue[0] + Flatten(queue[1..]) == gone + (queue[0] + Flatten(queue[1..]));
  }

  lemma AppendPackage(gone: seq<Byte>, queue: seq<seq<Byte>>, package: seq<Byte>)
    ensures gone + Flatten(queue + [package]) == gone + Flatten(queue) + package
  {
    FlattenAppend(queue, [package]);
    assert [package][1..] == [] && package + [] == package;
    assert gone + (Flatten(queue) + package) == gone + Flatten(queue) + package;
  }

  class SendCell {
    const slots: array<Unit?>
    const unitSize: nat
    var readPos: nat
    var writePos: nat
    /** The units held, oldest first, and what of each is still unread. */
    ghost var Units: seq<Unit>
    ghost var Queue: seq<seq<Byte>>
    /** Every unit deleted so far; every byte accepted, and every byte read or thrown away. */
    ghost var Freed: set<Unit>
    ghost var Accepted: seq<Byte>
    ghost var Gone: seq<Byte>

    function At(pos: nat): (r: nat)
      requires slots.Length > 0
      ensures r < slots.Length
    {
      QuotRem(pos, slots.Length);
      Rem(pos, slots.Length)
    }

    ghost predicate UnitOk(k: nat)
      reads this, slots, Units
      requires slots.Length > 0 && k < |Units| == |Queue|
    {
      var u := Units[k];
      && slots[At(readPos + k)] == u && u !in Freed && (u.enableRead || Queue[k] == [])
      && u.sendPos <= u.size <= |u.ptr| && Queue[k] == u.ptr[u.sendPos..u.size]
    }

    /** At most one slot less than the ring has; units distinct; bytes conserved. */
    ghost predicate Held()
      reads this, slots, Units
    {
      && slots.Length >= 2 && unitSize >= 1
      && writePos == readPos + |Queue| && |Units| == |Queue| < slots.Length
      && (forall k :: 0 <= k < |Units| ==> UnitOk(k))
      && (forall k, l :: 0 <= k < l < |Units| ==> Units[k] != Units[l])
      && Accepted == Gone + Flatten(Queue)
    }

    /** Between operations every unit held has something left to read. */
    ghost predicate Valid()
      reads this, slots, Units
    {
      Held() && forall k :: 0 <= k < |Queue| ==> Queue[k] != []
    }

    /** The slots are left as they come. */
    constructor (sendCellSize: nat, unitSize: nat)
      requires sendCellSize >= 2 && unitSize >= 1
      ensures Valid() && fresh(slots) && slots.Length == sendCellSize
      ensures Queue == [] && Freed == {} && Accepted == []
    {
      slots := new Unit?[sendCellSize];
      this.unitSize, readPos, writePos := unitSize, 0, 0;
      Units, Queue, Freed, Accepted, Gone := [], [], {}, [], [];
    }

    /** Ring positions within one lap are equal only for equal counters. */
    lemma SameSlot(a: nat, b: nat)
      requires slots.Length >= 1 && a <= b < a + slots.Length
      ensures At(a) == At(b) <==> a == b
    {
      if At(a) == At(b) {
        WindowUnique(a, a, b, slots.Length);
      }
    }

    method IsEmpty() returns (r: bool)
      requires Valid()
      ensures r <==> Queue == []
    {
      SameSlot(readPos, writePos);
      r := At(writePos) == At(readPos);
    }

    method IsFull() returns (r: bool)
      requires Valid()
      ensures r <==> |Queue| == slots.Length - 1
    {
      if |Queue| == slots.Length - 1 {
        AddBlocks(readPos, slots.Length, 1);
      } else {
        SameSlot(readPos, writePos + 1);
      }
      r := At(writePos + 1) == At(readPos);
    }

    method WriteCache(head: seq<Byte>, body: seq<Byte>) returns (ok: bool)
      requires Valid() && head != []
      modifies this, slots
      ensures Valid() && Freed == old(Freed)
      ensures ok <==> |old(Queue)| < slots.Length - 1
      ensures Queue == old(Queue) + if ok then [head + body] else []
      ensures Accepted == old(Accepted) + if ok then head + body else []
      ensures Gone == old(Gone)
      ensures old(Units) <= Units && forall k :: |old(Units)| <= k < |Units| ==> fresh(Units[k])
    {
      hide Flatten;
      var full := IsFull();
      if full {
        return false;
      }
      var u := new Unit(head, body, unitSize);
      AppendPackage(Gone, Queue, head + body);
      slots[At(writePos)] := u;
      writePos := writePos + 1;
      Units, Queue, Accepted := Units + [u], Queue + [head + body], Accepted + (head + body);
      forall k | 0 <= k < |Units| ensures UnitOk(k) {
        if k < |Units| - 1 {
          assert old(UnitOk(k));
          SameSlot(readPos + k, old(writePos));
        }
      }
      return true;
    }

    /** Whether a read is possible: here, whenever a unit is held. */
    method EnableRead() returns (r: bool)
      requires Valid()
      ensures r <==> Queue != []
    {
      var none := IsEmpty();
      if none {
        return false;
      }
      assert UnitOk(0);
      var u := slots[At(readPos)];
      return u != null && u.enableRead;
    }

    /** The memory to read from: it starts with the oldest unit's unread bytes. */
    method ReadCache() returns (r: Option<seq<Byte>>)
      requires Valid()
      ensures r.None? <==> Queue == []
      ensures r.Some? ==> Queue[0] <= r.value
    {
      var some := EnableRead();
      if !some {
        return None;
      }
      assert UnitOk(0);
      var u := slots[At(readPos)];
      return Some(u.ptr[u.sendPos..]);
    }

    method ReadEnableLen() returns (n: nat)
      requires Valid()
      ensures n == if Queue == [] then 0 else |Queue[0]|
      ensures n == 0 <==> Queue == []
    {
      var some := EnableRead();
      if !some {
        return 0;
      }
      assert UnitOk(0);
      var u := slots[At(readPos)];
      return u.size - u.sendPos;
    }

    /** Deletes the oldest unit and clears its slot. */
    method Drop()
      requires Held() && Queue != []
      modifies this, slots
      ensures Held() && Queue == old(Queue)[1..] && Units == old(Units)[1..]
      ensures Accepted == old(Accepted) && Gone == old(Gone) + old(Queue)[0]
      ensures old(Units)[0] !in old(Freed) && Freed == old(Freed) + {old(Units)[0]}
    {
      hide Flatten;
      assert UnitOk(0);
      CutHead(Gone, Queue);
      slots[At(readPos)] := null;
      readPos := readPos + 1;
      Freed, Gone := Freed + {Units[0]}, Gone + Queue[0];
      Units, Queue := Units[1..], Queue[1..];
      forall k | 0 <= k < |Units| ensures UnitOk(k) {
        assert old(UnitOk(k + 1)) && old(Units[0] != Units[k + 1]);
        SameSlot(old(readPos), readPos + k);
      }
    }

    /** Moves the oldest unit's read position. */
    method Advance(len: nat)
      requires Held() && Queue != [] && len <= |Queue[0]|
      modifies this`Queue, this`Gone, Units[0]
      ensures Held() && Queue == [old(Queue)[0][len..]] + old(Queue)[1..]
      ensures Gone == old(Gone) + old(Queue)[0][..len]
    {
      hide Flatten;
      assert UnitOk(0);
      var u := slots[At(readPos)];
      CutPayload(Gone, Queue[0], len, Queue[1..]);
      assert [Queue[0]] + Queue[1..] == Queue;
      u.sendPos := u.sendPos + len;
      Gone, Queue := Gone + Queue[0][..len], [Queue[0][len..]] + Queue[1..];
      forall k | 0 <= k < |Units| ensures UnitOk(k) {
        assert old(UnitOk(k));
      }
    }

    /** The caller has read len of the oldest unit's bytes; a unit read to its end is
        deleted. */
    method HasRead(len: nat)
      requires Valid() && Queue != [] && len <= |Queue[0]|
      modifies this, slots, Units[0]
      ensures Valid()
      ensures Gone == old(Gone) + old(Queue)[0][..len] && Accepted == old(Accepted)
      ensures len < |old(Queue)[0]| ==> Queue == [old(Queue)[0][len..]] + old(Queue)[1..]
      ensures len < |old(Queue)[0]| ==> Units == old(Units) && Freed == old(Freed)
      ensures len == |old(Queue)[0]| ==> Queue == old(Queue)[1..] && Units == old(Units)[1..]
      ensures len == |old(Queue)[0]| ==> old(Units)[0] !in old(Freed) && Freed == old(Freed) + {old(Units)[0]}
    {
      assert UnitOk(0);
      var u := slots[At(readPos)];
      Advance(len);
      label Moved:
      assert UnitOk(0);
      if u.size <= u.sendPos {
        u.enableRead := false;
        forall k | 0 <= k < |Units| ensures UnitOk(k) {
          assert old@Moved(UnitOk(k));
        }
        Drop();
      }
    }

    /** The destructor's loop. It ends because every slot between the counters is set, and
        it deletes exactly the units still held. */
    method Clear()
      requires Valid()
      modifies this, slots
      ensures Valid() && Queue == [] && Gone == Accepted == old(Accepted)
      ensures Freed == old(Freed) + set u | u in old(Units)
    {
      var none := IsEmpty();
      while !none
        invariant Valid() && (none <==> Queue == []) && Accepted == old(Accepted)
        invariant Freed + (set u | u in Units) == old(Freed) + set u | u in old(Units)
        invariant Units == old(Units)[|old(Units)| - |Units|..]
        decreases |Queue|
      {
        assert UnitOk(0);
        if slots[At(readPos)] != null {
          Drop();
        }
        none := IsEmpty();
      }
    }
  }
}
