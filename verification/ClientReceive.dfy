/** The client's receive path: `easyTcpClient::RecvData` (base/src/tcp_client/tcpClient.cpp)
    around the frame parser of common/src/tcp_client_notify.cpp. */
module ClientReceive {
  import opened Framing
  import opened ServerReceive

  /** `handle_msg` cannot refuse. */
  function Always(): Answers {
    i => true
  }

  /** After a call that returned 0, the client compacts only from half the buffer on, and
      does not reset its cursors when nothing is unread. */
  function Kept(B: nat, start: nat, unread: seq<Byte>): Rx {
    if start >= B / 2 then Rx(0, unread) else Rx(start, unread)
  }

  /** One `RecvData` that received a non-empty chunk, and its return value. */
  function Recv(B: nat, s: Session, chunk: seq<Byte>): (Session, int) {
    var b := s.rx.unread + chunk;
    var o := Handle(b, Always(), s.calls);
    if o.used == 0 then (s.(rx := Rx(s.rx.start, b)), -1)
    else (Session(Kept(B, s.rx.start + o.used, b[o.used..]), s.accepted + o.frames, o.calls), 0)
  }

  /** All chunks fit and every call returned 0. */
  predicate Alive(B: nat, s: Session, chunks: seq<seq<Byte>>)
    decreases |chunks|
  {
    chunks == [] || (Fits(B, s, chunks[0]) && Recv(B, s, chunks[0]).1 == 0 && Alive(B, Recv(B, s, chunks[0]).0, chunks[1..]))
  }

  function RecvAll(B: nat, s: Session, chunks: seq<seq<Byte>>): Session
    decreases |chunks|
  {
    if chunks == [] then s else RecvAll(B, Recv(B, s, chunks[0]).0, chunks[1..])
  }

  /** All that was received: its parse has been handled and its rest is unread. */
  ghost predicate InStep(s: Session, all: seq<Byte>) {
    s.accepted == Parse(all) && s.rx.unread == Rest(all)
  }

  /** `RecvData` returns 0, keeping the connection, iff the chunk completes a frame;
      either way it has handled exactly the parse of everything received. */
  lemma RecvInStep(B: nat, s: Session, all: seq<Byte>, chunk: seq<Byte>)
    requires InStep(s, all)
    ensures InStep(Recv(B, s, chunk).0, all + chunk)
    ensures Recv(B, s, chunk).1 == 0 <==> Parse(s.rx.unread + chunk) != []
  {
    hide Complete, Length, Head;
    var b := s.rx.unread + chunk;
    ParseExtends(all, chunk);
    RestExtends(all, chunk);
    WillingHandle(b, Always(), s.calls);
    UsedIff(b, s.calls);
  }

  lemma UsedIff(b: seq<Byte>, calls: nat)
    ensures Handle(b, Always(), calls).used == 0 <==> Parse(b) == []
    ensures Handle(b, Always(), calls).used == 0 ==> Handle(b, Always(), calls).frames == [] && Rest(b) == b
  {
  }

  /** Main theorem: over any chunking, as long as the connection lives, the messages
      handled are the greedy parse of all bytes received, and the unread region of the
      buffer is exactly the rest. */
  lemma {:induction false} HandledIsParse(B: nat, s: Session, all: seq<Byte>, chunks: seq<seq<Byte>>)
    requires InStep(s, all)
    ensures InStep(RecvAll(B, s, chunks), all + Concat(chunks))
    decreases |chunks|
  {
    hide Complete, Length, Head, Recv;
    if chunks == [] {
      assert all + Concat(chunks) == all;
    } else {
      RecvInStep(B, s, all, chunks[0]);
      HandledIsParse(B, Recv(B, s, chunks[0]).0, all + chunks[0], chunks[1..]);
      assert all + Concat(chunks) == all + chunks[0] + Concat(chunks[1..]);
    }
  }

  /** The client does not survive a frame that arrives in two reads: whatever the frame
      and wherever it is cut, the first part closes the connection. */
  lemma SplitFrameCloses(B: nat, f: Frame, n: nat)
    requires WellFormed(f) && 0 < n < |Encode(f)|
    ensures Recv(B, FRESH, Encode(f)[..n]).1 == -1
  {
    TruncatedIsIncomplete(f, n);
    assert FRESH.rx.unread + Encode(f)[..n] == Encode(f)[..n];
  }

  // ---------------------------------------------------------------- room to receive

  ghost predicate Roomy(B: nat, s: Session, all: seq<Byte>) {
    InStep(s, all) && (s.rx.start < B / 2 || s.rx == Rx(0, [])) && !Jammed(B, s)
  }

  lemma RecvRoomy(B: nat, F: nat, fs: seq<Frame>, s: Session, all: seq<Byte>, chunk: seq<Byte>)
    requires B >= 2 && B % 2 == 0 && F <= B / 2 + 1 && AtMost(F, fs)
    requires Roomy(B, s, all) && Fits(B, s, chunk) && all + chunk <= EncodeAll(fs) && Recv(B, s, chunk).1 == 0
    ensures Roomy(B, Recv(B, s, chunk).0, all + chunk)
  {
    hide Complete, Length, Head;
    RecvInStep(B, s, all, chunk);
    var n := |all + chunk|;
    assert EncodeAll(fs)[..n] == all + chunk;
    RestIsPartialFrame(fs, n, F);
  }

  lemma {:induction false} AllRoomy(B: nat, F: nat, fs: seq<Frame>, s: Session, all: seq<Byte>, chunks: seq<seq<Byte>>)
    requires B >= 2 && B % 2 == 0 && F <= B / 2 + 1 && AtMost(F, fs)
    requires Roomy(B, s, all) && Alive(B, s, chunks) && all + Concat(chunks) <= EncodeAll(fs)
    ensures !Jammed(B, RecvAll(B, s, chunks))
    decreases |chunks|
  {
    hide Complete, Length, Head, Recv;
    if chunks != [] {
      var more := all + chunks[0];
      assert all + Concat(chunks) == more + Concat(chunks[1..]);
      assert more <= EncodeAll(fs);
      RecvRoomy(B, F, fs, s, all, chunks[0]);
      AllRoomy(B, F, fs, Recv(B, s, chunks[0]).0, more, chunks[1..]);
    }
  }

  /** Every live connection has room to receive, for every stream of frames up to F bytes. */
  ghost predicate AlwaysRoom(B: nat, F: nat) {
    forall fs, chunks ::
      AtMost(F, fs) && Alive(B, FRESH, chunks) && Concat(chunks) <= EncodeAll(fs)
      ==> !Jammed(B, RecvAll(B, FRESH, chunks))
  }

  lemma TooLongFills(B: nat) returns (fs: seq<Frame>, chunk: seq<Byte>)
    requires B % 2 == 0 && 20 <= B < 0x8000_0000
    ensures AtMost(B / 2 + 2, fs) && chunk <= EncodeAll(fs)
    ensures Alive(B, FRESH, [chunk]) && Jammed(B, RecvAll(B, FRESH, [chunk]))
  {
    var f, g := Filler(B / 2 - 9), Filler(B / 2 - 6);
    fs := [f, g];
    assert EncodeAll(fs[1..]) == Encode(g) + EncodeAll([]);
    assert EncodeAll(fs) == Encode(f) + Encode(g);
    var tail := Encode(g)[..B / 2 + 1];
    chunk := EncodeAll(fs)[..B];
    assert chunk == Encode(f) + tail;
    TruncatedIsIncomplete(g, B / 2 + 1);
    FrameThenTail(B, f, tail);
    assert [chunk][1..] == [];
    assert Alive(B, Recv(B, FRESH, chunk).0, []);
  }

  lemma FrameThenTail(B: nat, f: Frame, tail: seq<Byte>)
    requires WellFormed(f) && !Complete(tail) && |Encode(f)| < B / 2
    ensures Recv(B, FRESH, Encode(f) + tail).0.rx == Rx(|Encode(f)|, tail)
    ensures Recv(B, FRESH, Encode(f) + tail).1 == 0
  {
    hide Complete, Length, Head;
    var b := Encode(f) + tail;
    EncodeIsComplete(f, tail);
    assert FRESH.rx.unread + b == b;
    assert Handle(tail, Always(), 1).used == 0;
    assert Handle(b, Always(), 0).used == |Encode(f)|;
  }

  /** Main theorem: every call that returns 0 leaves room to receive, in every chunking,
      iff frames are at most half the buffer plus one byte. Without room, `recv` is asked
      for zero bytes and its 0 is taken for a disconnect. */
  lemma AlwaysRoomIff(B: nat, F: nat)
    requires B % 2 == 0 && 20 <= B < 0x8000_0000
    ensures AlwaysRoom(B, F) <==> F <= B / 2 + 1
  {
    if F <= B / 2 + 1 {
      forall fs, chunks | AtMost(F, fs) && Alive(B, FRESH, chunks) && Concat(chunks) <= EncodeAll(fs)
        ensures !Jammed(B, RecvAll(B, FRESH, chunks))
      {
        EmptyIsIncomplete();
        assert [] + Concat(chunks) == Concat(chunks);
        AllRoomy(B, F, fs, FRESH, [], chunks);
      }
    } else {
      var fs, chunk := TooLongFills(B);
      assert Concat([chunk]) == chunk + Concat([]) == chunk;
      assert AtMost(F, fs);
      assert Jammed(B, RecvAll(B, FRESH, [chunk]));
    }
  }

  // ---------------------------------------------------------------- from an idle connection

  lemma {:induction false} CursorBelowHalf(B: nat, s: Session, chunks: seq<seq<Byte>>)
    requires Alive(B, s, chunks) && (s.rx.start < B / 2 || s.rx.start == 0)
    ensures var s' := RecvAll(B, s, chunks); s'.rx.start < B / 2 || s'.rx.start == 0
    decreases |chunks|
  {
    hide Handle, Fits;
    if chunks != [] {
      CursorBelowHalf(B, Recv(B, s, chunks[0]).0, chunks[1..]);
    }
  }

  /** Whatever came before, when nothing is unread a frame up to F bytes can come whole, and
      is handled. */
  ghost predicate IdleTakes(B: nat, F: nat) {
    forall chunks, f :: Alive(B, FRESH, chunks) && AtMost(F, [f]) ==> Taken(B, RecvAll(B, FRESH, chunks), f)
  }

  ghost predicate Taken(B: nat, s: Session, f: Frame)
    requires WellFormed(f)
  {
    s.rx.unread == [] ==>
      && Fits(B, s, Encode(f)) && Recv(B, s, Encode(f)).1 == 0
      && Recv(B, s, Encode(f)).0.accepted == s.accepted + [f]
  }

  lemma WholeFrameTaken(B: nat, s: Session, f: Frame)
    requires WellFormed(f) && s.rx.unread == [] && |Encode(f)| <= B - s.rx.start
    ensures Taken(B, s, f)
  {
    hide Complete, Length, Head, Encode;
    var b := Encode(f);
    EncodeIsComplete(f, []);
    assert b + [] == b && s.rx.unread + b == b;
    EmptyIsIncomplete();
    HandleOnce(b, Always(), s.calls);
    HandleOnce([], Always(), s.calls + 1);
    assert [f] + [] == [f];
  }

  /** Main theorem: unlike the server, the client does not go back to the front of its buffer
      when it has used everything, so even one frame at a time is sure to find room iff frames
      are at most half the buffer plus one byte. */
  lemma IdleTakesIff(B: nat, F: nat)
    requires B % 2 == 0 && 20 <= B < 0x8000_0000
    ensures IdleTakes(B, F) <==> F <= B / 2 + 1
  {
    hide Encode, Alive, RecvAll, Recv;
    if F <= B / 2 + 1 {
      forall chunks, f | Alive(B, FRESH, chunks) && AtMost(F, [f]) ensures Taken(B, RecvAll(B, FRESH, chunks), f) {
        CursorBelowHalf(B, FRESH, chunks);
        assert f in [f];
        var s := RecvAll(B, FRESH, chunks);
        if s.rx.unread == [] {
          WholeFrameTaken(B, s, f);
        }
      }
    } else {
      var f, g := Filler(B / 2 - 9), Filler(B / 2 - 6);
      JustBelowHalf(B, f);
      assert AtMost(F, [g]);
      assert !Taken(B, RecvAll(B, FRESH, [Encode(f)]), g);
    }
  }

  /** One frame of one byte less than half the buffer leaves half the buffer and one byte. */
  lemma JustBelowHalf(B: nat, f: Frame)
    requires B >= 2 && B % 2 == 0 && WellFormed(f) && |Encode(f)| == B / 2 - 1
    ensures Alive(B, FRESH, [Encode(f)]) && RecvAll(B, FRESH, [Encode(f)]).rx == Rx(B / 2 - 1, [])
  {
    EmptyIsIncomplete();
    FrameThenTail(B, f, []);
    assert Encode(f) + [] == Encode(f);
    hide Encode, Recv;
    var none: seq<seq<Byte>> := [];
    assert [Encode(f)][1..] == none;
  }
}

module EasyTcpClients {
  import opened Framing
  import opened ServerReceive
  import opened ClientReceive

  const MAX_BUF_SIZE: nat := 51200
  const CACHE_SIZE: nat := 8192

  class EasyTcpClient {
    const msgBuf: array<Byte>
    const msgCache: array<Byte>
    var readIndex: nat
    var writeIndex: nat
    var calls: nat
    ghost var handled: seq<Frame>

    ghost predicate Valid()
      reads this
    {
      && 2 <= msgBuf.Length < 0x8000_0000 && msgBuf.Length % 2 == 0 && msgBuf != msgCache
      && readIndex <= writeIndex <= msgBuf.Length
    }

    ghost function State(): Session
      reads this, msgBuf
      requires Valid()
    {
      Session(Rx(readIndex, msgBuf[readIndex..writeIndex]), handled, calls)
    }

    constructor ()
      ensures Valid() && fresh(msgBuf) && fresh(msgCache) && State() == FRESH && msgBuf.Length == MAX_BUF_SIZE
    {
      msgBuf := new Byte[MAX_BUF_SIZE](_ => 0);
      msgCache := new Byte[CACHE_SIZE](_ => 0);
      readIndex, writeIndex, calls, handled := 0, 0, 0, [];
    }

    /** Copies a payload for `handle_msg`, zero-terminated, into the cache or, when it is
        too long for it, into a buffer of its own. */
    method CopyPayload(payload: seq<Byte>) returns (info: array<Byte>)
      modifies msgCache
      ensures if |payload| < msgCache.Length then info == msgCache else fresh(info) && info.Length == |payload| + 1
      ensures |payload| < info.Length && info[..|payload| + 1] == payload + [0]
    {
      info := msgCache;
      var size := |payload|;
      if msgCache.Length < size + 1 {
        info := new Byte[size + 1](_ => 0);
      }
      forall i | 0 <= i < size + 1 {
        info[i] := 0;
      }
      forall i | 0 <= i < size {
        info[i] := payload[i];
      }
    }

    /** The payload as `handle_msg` finds it in the copy. */
    method Delivered(payload: seq<Byte>) returns (copy: seq<Byte>)
      modifies msgCache
      ensures copy == payload
    {
      var info := CopyPayload(payload);
      copy := info[..|payload|];
      assert copy == info[..|payload| + 1][..|payload|];
    }

    /** `tcp_client_notify::OnRecvData`: how many bytes it used and the messages it gave to
        `handle_msg`, read back from the buffer they were copied to. */
    method OnRecvData(buf: seq<Byte>, asked: nat) returns (readpos: nat, messages: seq<Frame>, calls: nat)
      requires |buf| < 0x8000_0000
      modifies msgCache
      ensures Outcome(messages, readpos, calls) == Handle(buf, Always(), asked)
    {
      hide Complete, Length, Head, ReadInt, Cast32, Handle;
      readpos, messages, calls := 0, [], asked;
      assert buf[0..] == buf;
      LoopRound(buf, readpos, Always(), calls);
      while Cast32(|buf| - readpos) > HEADER
        invariant readpos <= |buf| && Cast32(|buf| - readpos) == |buf| - readpos
        invariant var o := Handle(buf[readpos..], Always(), calls);
          Handle(buf, Always(), asked) == Outcome(messages + o.frames, readpos + o.used, o.calls)
        decreases |buf| - readpos
      {
        LoopRound(buf, readpos, Always(), calls);
        var size := ReadInt(buf[readpos + 4..readpos + 8]);
        if size <= 0 {
          return;
        }
        if Cast32(|buf| - readpos - HEADER - size) >= 0 {
          var payload := Delivered(buf[readpos + HEADER..readpos + HEADER + size]);
          messages := messages + [Frame(ReadInt(buf[readpos..readpos + 4]), payload)];
          calls := calls + 1;
          readpos := readpos + HEADER + size;
          LoopRound(buf, readpos, Always(), calls);
        } else {
          return;
        }
      }
      LoopRound(buf, readpos, Always(), calls);
    }

    /** What `recv` does: bytes appear behind the unread ones. */
    method Take(received: seq<Byte>)
      requires Valid() && |received| <= msgBuf.Length - writeIndex
      modifies this`writeIndex, msgBuf
      ensures Valid() && writeIndex == old(writeIndex) + |received|
      ensures msgBuf[readIndex..writeIndex] == old(msgBuf[readIndex..writeIndex]) + received
    {
      forall i | 0 <= i < |received| {
        msgBuf[writeIndex + i] := received[i];
      }
      writeIndex := writeIndex + |received|;
    }

    /** `OnRecvData` on the unread bytes; the read cursor moves past what it used. */
    method HandOn() returns (retsize: nat)
      requires Valid()
      modifies this`readIndex, this`handled, this`calls, msgCache
      ensures Valid()
      ensures var b := old(msgBuf[readIndex..writeIndex]);
        var o := Handle(b, Always(), old(calls));
        && retsize == o.used && readIndex == old(readIndex) + o.used && msgBuf[readIndex..writeIndex] == b[o.used..]
        && handled == old(handled) + o.frames && calls == o.calls
    {
      hide Handle;
      ghost var b := msgBuf[readIndex..writeIndex];
      var messages;
      retsize, messages, calls := OnRecvData(msgBuf[readIndex..writeIndex], calls);
      handled, readIndex := handled + messages, readIndex + retsize;
      assert msgBuf[readIndex..writeIndex] == b[retsize..];
    }

    /** The `memcpy` to the front; its two ranges never overlap. */
    method CompactBuffer()
      requires Valid()
      modifies this`readIndex, this`writeIndex, msgBuf
      ensures Valid()
      ensures Rx(readIndex, msgBuf[readIndex..writeIndex]) ==
              Kept(msgBuf.Length, old(readIndex), old(msgBuf[readIndex..writeIndex]))
    {
      if readIndex >= msgBuf.Length / 2 {
        var n := writeIndex - readIndex;
        assert n <= readIndex;
        forall i | 0 <= i < n {
          msgBuf[i] := msgBuf[readIndex + i];
        }
        writeIndex := writeIndex - readIndex;
        readIndex := 0;
      }
    }

    /** `RecvData`, given what `recv` returned: the bytes (none on error or disconnect, and
        none when no room was left). Returns -1 when the caller must close. */
    method RecvData(received: seq<Byte>) returns (ret: int)
      requires Valid() && |received| <= msgBuf.Length - writeIndex
      modifies this, msgBuf, msgCache
      ensures Valid()
      ensures received == [] ==> ret == -1 && State() == old(State())
      ensures received != [] ==> (State(), ret) == Recv(msgBuf.Length, old(State()), received)
    {
      hide Handle, Kept;
      if |received| <= 0 {
        return -1;
      }
      Take(received);
      ghost var b := msgBuf[readIndex..writeIndex];
      ghost var before := handled;
      NothingUsed(b, calls);
      var retsize := HandOn();
      if retsize <= 0 {
        assert b[0..] == b && handled == before + [] == before;
        return -1;
      }
      CompactBuffer();
      return 0;
    }

    lemma NothingUsed(b: seq<Byte>, calls: nat)
      ensures var o := Handle(b, Always(), calls); o.used == 0 ==> o == Outcome([], 0, calls)
    {
    }
  }
}
