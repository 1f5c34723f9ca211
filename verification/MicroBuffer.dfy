/** `micro_buffer`: a byte queue in one array, moved back to the front once the read cursor
    has passed the middle (base/src/tcp_common/micro_buffer.cpp, micro_buffer.h). */
module MicroBuffers {
  import opened Framing
  import opened Messages

  datatype Cursors = Cursors(read: nat, write: nat)

  /** `has_write` and `has_read`, each reporting a length. */
  datatype Op = HasWrite(len: nat) | HasRead(len: nat)

  /** Callers report no more than `enable_write` or `enable_read` offered. */
  predicate Allowed(total: nat, c: Cursors, op: Op) {
    match op
    case HasWrite(n) => c.write + n <= total
    case HasRead(n) => c.read + n <= c.write
  }

  function Apply(total: nat, c: Cursors, op: Op): Cursors
    requires Allowed(total, c, op)
  {
    match op
    case HasWrite(n) => c.(write := c.write + n)
    case HasRead(n) =>
      if c.read + n >= total / 2 then Cursors(0, c.write - (c.read + n)) else c.(read := c.read + n)
  }

  /** Where a sequence of operations on a new buffer leads, if each was allowed. */
  function After(total: nat, ops: seq<Op>): (r: Option<Cursors>)
    ensures r.Some? ==> r.value.read <= r.value.write <= total
    decreases |ops|
  {
    if ops == [] then Some(Cursors(0, 0))
    else
      var n := |ops| - 1;
      match After(total, ops[..n])
      case None => None
      case Some(c) => if Allowed(total, c, ops[n]) then Some(Apply(total, c, ops[n])) else None
  }

  /** Whether going from c to c' moved the unread bytes, rather than only the read cursor. */
  predicate Moved(c: Cursors, op: Op, c': Cursors) {
    op.HasRead? && c.read + op.len < c.write && c'.read != c.read + op.len
  }

  /** The bytes moved from [read, write) to [read', write') do not land on each other. */
  predicate CopyIsDisjoint(c: Cursors, op: Op, c': Cursors) {
    Moved(c, op, c') ==> c'.write <= c.read + op.len || c.write <= c'.read
  }

  ghost predicate LastCopyIsDisjoint(total: nat, ops: seq<Op>, op: Op) {
    var before := After(total, ops);
    before.Some? && Allowed(total, before.value, op) ==>
      CopyIsDisjoint(before.value, op, Apply(total, before.value, op))
  }

  /** Main theorem: no sequence of operations makes the compaction move bytes between
      overlapping ranges, which `memcpy` forbids, exactly when the capacity is even. (One byte
      of capacity only ever stays where it is.) */
  lemma DisjointIffEven(total: nat)
    ensures (forall ops, op :: LastCopyIsDisjoint(total, ops, op)) <==> total % 2 == 0 || total == 1
  {
    if total % 2 == 1 && total > 1 {
      FilledUp(total);
      var c, op := Cursors(0, total), HasRead(total / 2);
      assert Allowed(total, c, op) && Apply(total, c, op) == Cursors(0, total - total / 2);
      assert !LastCopyIsDisjoint(total, [HasWrite(total)], op);
    }
  }

  lemma FilledUp(total: nat)
    ensures After(total, [HasWrite(total)]) == Some(Cursors(0, total))
  {
    var fill := [HasWrite(total)];
    assert fill[..0] == [];
    assert After(total, fill[..0]) == Some(Cursors(0, 0));
  }

  /** Between operations less than half the capacity has been read and not moved away, so that
      bytes move exactly when a read brings that to half or more: no sooner, and no later. */
  lemma {:induction false} MovesAtHalf(total: nat, ops: seq<Op>, op: Op)
    ensures var before := After(total, ops);
      before.Some? && Allowed(total, before.value, op) ==>
        var c, c' := before.value, Apply(total, before.value, op);
        && (c.read == 0 || 2 * c.read < total)
        && c'.write - c'.read == (if op.HasWrite? then c.write - c.read + op.len else c.write - c.read - op.len)
        && (Moved(c, op, c') <==> op.HasRead? && 0 < c.read + op.len < c.write && c.read + op.len >= total / 2)
    decreases |ops|
  {
    if ops != [] {
      MovesAtHalf(total, ops[..|ops| - 1], ops[|ops| - 1]);
    }
  }

  class MicroBuffer {
    const buf: array<Byte>
    var readPos: nat
    var writePos: nat

    ghost predicate Valid()
      reads this
    {
      readPos <= writePos <= buf.Length
    }

    ghost function Contents(): seq<Byte>
      reads this, buf
      requires Valid()
    {
      buf[readPos..writePos]
    }

    ghost function State(): Cursors
      reads this
    {
      Cursors(readPos, writePos)
    }

    constructor (total: nat)
      ensures Valid() && fresh(buf) && buf.Length == total && State() == Cursors(0, 0)
      ensures forall k :: 0 <= k < total ==> buf[k] == 0
    {
      buf := new Byte[total](_ => 0);
      readPos, writePos := 0, 0;
    }

    function EnableWrite(): (n: nat)
      reads this
      requires Valid()
    {
      buf.Length - writePos
    }

    function EnableRead(): (n: nat)
      reads this, buf
      requires Valid()
      ensures n == |Contents()|
    {
      writePos - readPos
    }

    /** The caller has placed len bytes at the write position. */
    method HasWrite(len: nat)
      requires Valid() && len <= EnableWrite()
      modifies this`writePos
      ensures Valid() && State() == Apply(buf.Length, old(State()), Op.HasWrite(len))
      ensures Contents() == old(Contents()) + old(buf[writePos..writePos + len])
    {
      writePos := writePos + len;
    }

    /** The caller has used the first len bytes. What is left may move, but stays the same;
        and unless it fills more than half the buffer there is room to write again. */
    method HasRead(len: nat)
      requires Valid() && len <= EnableRead()
      modifies this, buf
      ensures Valid() && State() == Apply(buf.Length, old(State()), Op.HasRead(len))
      ensures Contents() == old(Contents())[len..]
      ensures readPos == if old(readPos) + len < buf.Length / 2 then old(readPos) + len else 0
      ensures buf.Length >= 2 && EnableWrite() == 0 ==> 2 * EnableRead() > buf.Length
    {
      readPos := readPos + len;
      if readPos >= buf.Length / 2 {
        CopyDown(readPos, writePos - readPos);
        writePos := writePos - readPos;
        readPos := 0;
      }
    }

    /** The copy, in ascending order. */
    method CopyDown(from: nat, len: nat)
      requires from + len <= buf.Length
      modifies buf
      ensures buf[..len] == old(buf[from..from + len])
    {
      for i := 0 to len
        invariant buf[..i] == old(buf[from..from + i])
        invariant forall k :: from + i <= k < buf.Length ==> buf[k] == old(buf[k])
      {
        buf[i] := buf[from + i];
      }
    }
  }
}
