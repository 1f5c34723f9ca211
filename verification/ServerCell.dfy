/** The receive side of `clientCell` as the source runs it: a fixed buffer, two cursors,
    `doRecv`'s loop and the frame parser's loop, proved against `ServerReceive` and
    `ServerReads`. */
module ServerCells {
  import opened Framing
  import opened ServerReceive
  import opened ServerReads

  const SYSRECVBUF: nat := 1048576

  /** `tcp_server_notify::OnRecvData`: how many bytes it used, the frames `on_read` accepted,
      and how often `on_read` has been asked so far. */
  method OnRecvData(buf: seq<Byte>, answers: Answers, asked: nat)
    returns (readpos: nat, frames: seq<Frame>, calls: nat)
    requires |buf| < 0x8000_0000
    ensures Outcome(frames, readpos, calls) == Handle(buf, answers, asked)
  {
    hide Complete, Length, Head, ReadInt, Cast32, Handle;
    readpos, frames, calls := 0, [], asked;
    assert buf[0..] == buf;
    LoopRound(buf, readpos, answers, calls);
    while Cast32(|buf| - readpos) > HEADER
      invariant readpos <= |buf| && Cast32(|buf| - readpos) == |buf| - readpos
      invariant var o := Handle(buf[readpos..], answers, calls);
        Handle(buf, answers, asked) == Outcome(frames + o.frames, readpos + o.used, o.calls)
      decreases |buf| - readpos
    {
      LoopRound(buf, readpos, answers, calls);
      var size := ReadInt(buf[readpos + 4..readpos + 8]);
      if size <= 0 {
        return;
      }
      if Cast32(|buf| - readpos - HEADER - size) >= 0 {
        calls := calls + 1;
        if answers(calls - 1) {
          frames := frames + [Frame(ReadInt(buf[readpos..readpos + 4]), buf[readpos + HEADER..readpos + HEADER + size])];
          readpos := readpos + HEADER + size;
          LoopRound(buf, readpos, answers, calls);
        } else {
          return;
        }
      } else {
        return;
      }
    }
    LoopRound(buf, readpos, answers, calls);
  }

  class ServerCell {
    const recvBuf: array<Byte>
    var recvReadPos: nat
    var recvWritePos: nat
    var calls: nat
    ghost var accepted: seq<Frame>

    ghost predicate Valid()
      reads this
    {
      && 2 <= recvBuf.Length < 0x8000_0000 && recvBuf.Length % 2 == 0
      && recvReadPos <= recvWritePos <= recvBuf.Length
    }

    ghost function State(): Session
      reads this, recvBuf
      requires Valid()
    {
      Session(Rx(recvReadPos, recvBuf[recvReadPos..recvWritePos]), accepted, calls)
    }

    constructor ()
      ensures Valid() && fresh(recvBuf) && recvBuf.Length == SYSRECVBUF && State() == FRESH
    {
      recvBuf := new Byte[SYSRECVBUF](_ => 0);
      recvReadPos, recvWritePos := 0, 0;
      accepted, calls := [], 0;
    }

    /** What a successful `read` does: bytes appear behind the unread ones. */
    method Take(bytes: seq<Byte>)
      requires Valid() && |bytes| <= recvBuf.Length - recvWritePos
      modifies this`recvWritePos, recvBuf
      ensures Valid() && recvWritePos == old(recvWritePos) + |bytes|
      ensures recvBuf[recvReadPos..recvWritePos] == old(recvBuf[recvReadPos..recvWritePos]) + bytes
    {
      forall i | 0 <= i < |bytes| {
        recvBuf[recvWritePos + i] := bytes[i];
      }
      recvWritePos := recvWritePos + |bytes|;
    }

    /** The cursor reset or the `memcpy` to the front; its two ranges never overlap. */
    method CompactBuffer()
      requires Valid()
      modifies this`recvReadPos, this`recvWritePos, recvBuf
      ensures Valid()
      ensures Rx(recvReadPos, recvBuf[recvReadPos..recvWritePos]) ==
              Compact(recvBuf.Length, old(recvReadPos), old(recvBuf[recvReadPos..recvWritePos]))
      ensures old(recvReadPos == recvWritePos) ==> recvReadPos == 0 && recvWritePos == 0
    {
      if recvReadPos >= recvWritePos {
        recvReadPos, recvWritePos := 0, 0;
      } else if recvReadPos >= recvBuf.Length / 2 {
        var n := recvWritePos - recvReadPos;
        assert n <= recvReadPos;
        forall i | 0 <= i < n {
          recvBuf[i] := recvBuf[recvReadPos + i];
        }
        recvWritePos := recvWritePos - recvReadPos;
        recvReadPos := 0;
      }
    }

    /** `OnRecvData` on the unread bytes, and the read cursor past what it used. */
    method HandOn(answers: Answers)
      requires Valid()
      modifies this`recvReadPos, this`accepted, this`calls
      ensures Valid()
      ensures var b := old(recvBuf[recvReadPos..recvWritePos]);
        var o := Handle(b, answers, old(calls));
        && recvReadPos == old(recvReadPos) + o.used && recvBuf[recvReadPos..recvWritePos] == b[o.used..]
        && accepted == old(accepted) + o.frames && calls == o.calls
    {
      hide Handle;
      ghost var b := recvBuf[recvReadPos..recvWritePos];
      var retSize, frames, asked := OnRecvData(recvBuf[recvReadPos..recvWritePos], answers, calls);
      accepted, calls := accepted + frames, asked;
      recvReadPos := recvReadPos + retSize;
      assert recvBuf[recvReadPos..recvWritePos] == b[retSize..];
    }

    /** One round of the loop after a read that returned these bytes. */
    method Round(bytes: seq<Byte>, answers: Answers)
      requires Valid() && |bytes| <= recvBuf.Length - recvWritePos
      modifies this, recvBuf
      ensures Valid() && State() == Receive(recvBuf.Length, old(State()), bytes, answers)
    {
      hide Handle, Compact;
      Take(bytes);
      HandOn(answers);
      CompactBuffer();
    }

    /** A `read` that returns data, and its round: what the socket still holds, what was
        read, and whether that was less than there was room for. */
    method ReadData(script: seq<ReadResult>, answers: Answers)
      returns (rest: seq<ReadResult>, chunk: seq<Byte>, short: bool)
      requires Valid() && recvWritePos < recvBuf.Length
      requires script != [] && script[0].Data? && !Fatal(script[0])
      modifies this, recvBuf
      ensures Valid() && Fits(recvBuf.Length, old(State()), chunk)
      ensures State() == Receive(recvBuf.Length, old(State()), chunk, answers)
      ensures rest == AfterRead(script, recvBuf.Length - old(recvWritePos)) && Stream(script) == chunk + Stream(rest)
      ensures chunk == Part(script[0].bytes, recvBuf.Length - old(recvWritePos))
      ensures short <==> |chunk| < recvBuf.Length - End(old(State()))
    {
      hide Complete, Length, Head, Handle, Receive, Stream;
      var bytes, room := script[0].bytes, recvBuf.Length - recvWritePos;
      AfterReadKeepsStream(script, room);
      rest, chunk, short := AfterRead(script, room), Part(bytes, room), |Part(bytes, room)| < room;
      Round(chunk, answers);
    }

    /** `doRecv`: reads until the socket has no more for now, hands whole frames on,
        compacts, and stops when the buffer is full, which it reports as error -2. */
    method DoRecv(script: seq<ReadResult>, answers: Answers)
      returns (rest: seq<ReadResult>, callbacks: nat, errors: seq<int>, deleted: bool, ghost read: seq<Byte>)
      requires Valid()
      modifies this, recvBuf
      ensures Valid() && (errors == [] || errors == [-2])
      ensures Received(State(), rest, read, callbacks, deleted, errors == [-2]) ==
              Reads(recvBuf.Length, old(State()), script, answers)
    {
      hide Receive, Stream, AfterRead, Reads, Part, Fatal;
      rest, callbacks, errors, deleted, read := script, 0, [], false, [];
      ghost var before := State();
      var B := recvBuf.Length;
      while recvWritePos < recvBuf.Length && rest != []
        invariant Valid() && errors == [] && !deleted
        invariant Reads(B, before, script, answers) == Ahead(read, callbacks, Reads(B, State(), rest, answers))
        decreases |Stream(rest)|, |rest|
      {
        var breakflag := false;
        if rest[0].Retry? {
          ReadsRetry(B, State(), rest, answers);
          rest := rest[1..];
          continue;
        } else if Fatal(rest[0]) {
          ReadsFatal(B, State(), rest, answers);
          rest, deleted := rest[1..], true;
          break;
        } else {
          NotFatal(rest[0]);
          ReadsData(B, State(), rest, answers);
          var chunk: seq<Byte>;
          rest, chunk, breakflag := ReadData(rest, answers);
          AheadTwice(read, callbacks, chunk, Reads(B, State(), rest, answers));
          read, callbacks := read + chunk, callbacks + 1;
        }
        if recvWritePos >= recvBuf.Length {
          errors := [-2];
          break;
        }
        if breakflag {
          break;
        }
      }
      if recvWritePos >= recvBuf.Length || rest == [] {
        ReadsIdle(B, State(), rest, answers);
      }
    }
  }
}
