/** `clientCell` as an object: its send ring, its receive buffer and its event mask
    (base/src/tcp_server/client_cell.h), with the loops of `doSend` and `doRecv` run on them. */
module ClientCells {
  import opened Framing
  import opened SendModel
  import opened ServerReads
  import opened EventLoop
  import opened SendRings
  import opened ServerCells

  class ClientCell {
    /** Which connection this is; the source needs no such number. */
    const conn: nat
    const ring: SendRing
    const buffer: ServerCell
    /** Whether `m_Events` contains EPOLLOUT. */
    var out: bool
    ghost var Repr: set<object>

    ghost predicate Valid()
      reads this, Repr
      ensures Valid() ==> this in Repr
    {
      && {this, ring, ring.slots, buffer, buffer.recvBuf} <= Repr
      && (forall c :: c in ring.Cells ==> c in Repr)
      && ring.Valid() && ring.slots.Length == SYSSENDBUF
      && buffer.Valid() && buffer.recvBuf.Length == SYSRECVBUF
    }

    ghost function State(): Cell
      reads this, Repr
      requires Valid()
    {
      Cell(conn, ring.Queue, out, buffer.State())
    }

    /** `m_Events` is left as it comes. */
    constructor (conn: nat, junk: bool)
      ensures Valid() && fresh(Repr) && State() == NewCell(conn, junk)
    {
      this.conn := conn;
      ring := new SendRing();
      buffer := new ServerCell();
      out := junk;
      new;
      Repr := {this, ring, ring.slots, buffer, buffer.recvBuf};
    }

    method SetOut(wanted: bool)
      requires Valid()
      modifies this`out
      ensures Valid() && State() == old(State()).(out := wanted)
    {
      out := wanted;
    }

    method IsPending() returns (r: bool)
      requires Valid()
      ensures r <==> State().ring != []
    {
      r := ring.IsPending();
    }

    /** `handleSend`'s part: a cell for the payload, and a place in the ring if there is one. */
    method Enqueue(data: seq<Byte>) returns (kept: bool)
      requires Valid()
      modifies Repr
      ensures Valid() && fresh(Repr - old(Repr))
      ensures kept <==> |old(State()).ring| + 1 < SYSSENDBUF
      ensures State() == old(State()).(ring := old(State()).ring + if kept then [data] else [])
    {
      var cell := new SendRings.SendCell(data);
      assert cell.ptr[..cell.size] == data;
      kept := ring.Enqueue(cell);
      Repr := Repr + {cell};
    }

    /** `doSend` on this client's ring: the bytes written. */
    method DoSend(results: Results) returns (wire: seq<Byte>)
      requires Valid()
      modifies Repr
      ensures Valid() && Repr == old(Repr)
      ensures var p := SendModel.Send(Progress(old(State()).ring, [], 0), results, MAX_SEND_TIMES);
        State() == old(State()).(ring := p.queue) && wire == p.wire
    {
      var writes;
      wire, writes := ring.DoSend(results, 0);
    }

    /** `doRecv` on this client's buffer. */
    method DoRecv(script: seq<ReadResult>, answers: Answers)
      returns (callbacks: nat, full: bool, fatal: bool, ghost r: Received)
      requires Valid()
      modifies Repr
      ensures Valid() && Repr == old(Repr)
      ensures r == Reads(SYSRECVBUF, old(State()).rx, script, answers)
      ensures State() == old(State()).(rx := r.session) && callbacks == r.callbacks && full == r.full && fatal == r.fatal
    {
      r := Reads(SYSRECVBUF, State().rx, script, answers);
      var rest, errors;
      ghost var read;
      rest, callbacks, errors, fatal, read := buffer.DoRecv(script, answers);
      full := errors == [-2];
    }

    /** The destructor: the loop that frees what is still in the ring. */
    method Destroy()
      requires Valid()
      modifies Repr
      ensures ring.Queue == [] && ring.FreedPrefix(old(ring.Cells), old(ring.Freed))
    {
      ring.Destroy();
    }
  }
}
