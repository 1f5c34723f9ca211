/** `cellManager::doRecv` as a function of what the kernel has in store for `read`
    (base/src/tcp_server/cell_manager.cpp:317-385). */
module ServerReads {
  import opened Framing
  import opened ServerReceive

  /** What the kernel has in store for `read`: data, EINTR or EAGAIN, another error, end of
      file. A `read` of no data is an end of file too. */
  datatype ReadResult = Data(bytes: seq<Byte>) | Retry | Failed | Eof

  /** All data of a script, in order. */
  function Stream(script: seq<ReadResult>): seq<Byte> {
    if script == [] then [] else (if script[0].Data? then script[0].bytes else []) + Stream(script[1..])
  }

  /** What a `read` of at most room bytes returns of this data. */
  function Part(bytes: seq<Byte>, room: nat): (chunk: seq<Byte>)
    ensures chunk <= bytes && |chunk| == if |bytes| <= room then |bytes| else room
  {
    if |bytes| <= room then bytes else bytes[..room]
  }

  /** Data the kernel could not deliver in one read stays in the socket. */
  function AfterRead(script: seq<ReadResult>, room: nat): seq<ReadResult>
    requires script != [] && script[0].Data?
  {
    if |script[0].bytes| <= room then script[1..] else [Data(script[0].bytes[room..])] + script[1..]
  }

  /** Answers on which `doRecv` asks for the client's deletion. */
  predicate Fatal(r: ReadResult) {
    r.Failed? || r.Eof? || r == Data([])
  }

  /** Where `doRecv` leaves the buffer, what the socket still holds, the bytes read, how often
      `OnRecvData` was called, whether the client is to be deleted, and whether the buffer
      has become full, which is reported as error -2. */
  datatype Received = Received(
    session: Session, rest: seq<ReadResult>, read: seq<Byte>, callbacks: nat, fatal: bool, full: bool)

  /** The loop, until the buffer is full or the socket has no more for now. */
  function Reads(B: nat, s: Session, script: seq<ReadResult>, answers: Answers): (r: Received)
    decreases |Stream(script)|, |script|
  {
    if Jammed(B, s) || script == [] then Received(s, script, [], 0, false, false)
    else if script[0].Retry? then Reads(B, s, script[1..], answers)
    else if Fatal(script[0]) then Received(s, script[1..], [], 0, true, false)
    else
      var room := B - End(s);
      var chunk, rest := Part(script[0].bytes, room), AfterRead(script, room);
      AfterReadKeepsStream(script, room);
      var s1 := Receive(B, s, chunk, answers);
      if Jammed(B, s1) || |chunk| < room then Received(s1, rest, chunk, 1, false, Jammed(B, s1))
      else
        Ahead(chunk, 1, Reads(B, s1, rest, answers))
  }

  /** A result with reads that were made before it. */
  function Ahead(read: seq<Byte>, callbacks: nat, r: Received): Received {
    r.(read := read + r.read, callbacks := callbacks + r.callbacks)
  }

  lemma AheadTwice(read: seq<Byte>, callbacks: nat, chunk: seq<Byte>, r: Received)
    ensures Ahead(read, callbacks, Ahead(chunk, 1, r)) == Ahead(read + chunk, callbacks + 1, r)
  {
    assert read + (chunk + r.read) == read + chunk + r.read;
  }

  lemma AfterReadKeepsStream(script: seq<ReadResult>, room: nat)
    requires script != [] && script[0].Data?
    ensures Stream(script) == Part(script[0].bytes, room) + Stream(AfterRead(script, room))
  {
    hide Stream;
    var b, tail := script[0].bytes, script[1..];
    assert script == [Data(b)] + tail;
    PushBack(b, tail);
    if |b| > room {
      PushBack(b[room..], tail);
      SplitBytes(b, room, Stream(tail));
    }
  }

  lemma SplitBytes(b: seq<Byte>, n: nat, tail: seq<Byte>)
    requires n <= |b|
    ensures b + tail == b[..n] + (b[n..] + tail)
  {
    assert b == b[..n] + b[n..];
  }

  lemma PushBack(b: seq<Byte>, tail: seq<ReadResult>)
    ensures Stream([Data(b)] + tail) == b + Stream(tail)
  {
    var rest := [Data(b)] + tail;
    assert rest[0] == Data(b) && rest[1..] == tail;
  }

  // ---------------------------------------------------------------- one round

  lemma ReadsIdle(B: nat, s: Session, script: seq<ReadResult>, answers: Answers)
    requires Jammed(B, s) || script == []
    ensures Reads(B, s, script, answers) == Received(s, script, [], 0, false, false)
  {
  }

  lemma ReadsRetry(B: nat, s: Session, script: seq<ReadResult>, answers: Answers)
    requires !Jammed(B, s) && script != [] && script[0].Retry?
    ensures Stream(script[1..]) == Stream(script)
    ensures Reads(B, s, script, answers) == Reads(B, s, script[1..], answers)
  {
  }

  lemma ReadsFatal(B: nat, s: Session, script: seq<ReadResult>, answers: Answers)
    requires !Jammed(B, s) && script != [] && Fatal(script[0])
    ensures Reads(B, s, script, answers) == Received(s, script[1..], [], 0, true, false)
  {
  }

  lemma NotFatal(r: ReadResult)
    requires !r.Retry? && !Fatal(r)
    ensures r.Data? && r.bytes != []
  {
  }

  lemma ReadsData(B: nat, s: Session, script: seq<ReadResult>, answers: Answers)
    requires !Jammed(B, s) && script != [] && script[0].Data? && !Fatal(script[0])
    ensures var room := B - End(s);
      var chunk, rest := Part(script[0].bytes, room), AfterRead(script, room);
      var s1 := Receive(B, s, chunk, answers);
      && Fits(B, s, chunk) && Stream(script) == chunk + Stream(rest)
      && |Stream(rest)| < |Stream(script)|
      && Reads(B, s, script, answers) ==
           if Jammed(B, s1) || |chunk| < room then Received(s1, rest, chunk, 1, false, Jammed(B, s1))
           else Ahead(chunk, 1, Reads(B, s1, rest, answers))
  {
    hide Stream, Receive;
    AfterReadKeepsStream(script, B - End(s));
  }

  /** rest is a suffix of the script, its first data possibly cut short. */
  predicate Remaining(script: seq<ReadResult>, rest: seq<ReadResult>) {
    && |rest| <= |script|
    && (rest != [] ==> rest[0] == script[|script| - |rest|] || (rest[0].Data? && script[|script| - |rest|].Data?))
    && forall i :: 1 <= i < |rest| ==> rest[i] == script[|script| - |rest| + i]
  }

  /** One of the answers before the rest was an error or an end of file. */
  ghost predicate MetFatal(script: seq<ReadResult>, rest: seq<ReadResult>) {
    exists i :: 0 <= i < |script| - |rest| && (script[i] == Failed || script[i] == Eof || script[i] == Data([]))
  }

  /** Next is the script with one answer taken off, or with that answer's data cut short. */
  predicate Follows(script: seq<ReadResult>, next: seq<ReadResult>) {
    && script != [] && !Fatal(script[0])
    && (next == script[1..] ||
        (next != [] && script[0].Data? && next[0].Data? && !Fatal(next[0]) && next == [next[0]] + script[1..]))
  }

  lemma SameAnswers(script: seq<ReadResult>, next: seq<ReadResult>, i: nat)
    requires Follows(script, next) && |script| - |next| <= i < |script| && 0 < i
    ensures script[i] == next[i - (|script| - |next|)]
  {
    assert script[1..][i - 1] == script[i];
  }

  lemma OneAnswer(script: seq<ReadResult>, next: seq<ReadResult>, rest: seq<ReadResult>)
    requires Follows(script, next) && Remaining(next, rest)
    ensures Remaining(script, rest) && (MetFatal(script, rest) <==> MetFatal(next, rest))
  {
    OneAnswerMet(script, next, rest);
    var d := |script| - |rest|;
    forall i | 1 <= i < |rest| ensures rest[i] == script[d + i] {
      SameAnswers(script, next, d + i);
    }
    if rest != [] && d > 0 {
      SameAnswers(script, next, d);
    }
  }

  lemma OneAnswerMet(script: seq<ReadResult>, next: seq<ReadResult>, rest: seq<ReadResult>)
    requires Follows(script, next) && |rest| <= |next|
    ensures MetFatal(script, rest) <==> MetFatal(next, rest)
  {
    var d := |script| - |next|;
    if MetFatal(script, rest) {
      var i :| 0 <= i < |script| - |rest| && Fatal(script[i]);
      SameAnswers(script, next, i);
      assert Fatal(next[i - d]);
    }
    if MetFatal(next, rest) {
      var i :| 0 <= i < |next| - |rest| && Fatal(next[i]);
      SameAnswers(script, next, i + d);
      assert Fatal(script[i + d]);
    }
  }

  /** Every chunk before the last took all the room there was: the loop reads again only then. */
  predicate FullButLast(B: nat, s: Session, chunks: seq<seq<Byte>>, answers: Answers)
    decreases |chunks|
  {
    |chunks| <= 1 || (|chunks[0]| == B - End(s) && FullButLast(B, Receive(B, s, chunks[0], answers), chunks[1..], answers))
  }

  /** The last of the chunks was less than there was room for: the socket was drained. */
  predicate EndsShort(B: nat, s: Session, chunks: seq<seq<Byte>>, answers: Answers)
    decreases |chunks|
  {
    && chunks != []
    && if |chunks| == 1 then |chunks[0]| < B - End(s)
       else EndsShort(B, Receive(B, s, chunks[0], answers), chunks[1..], answers)
  }

  // ---------------------------------------------------------------- what the loop does

  /** The chunks the reads delivered: together they are the bytes read, one callback each,
      the buffer is the one `Feed` describes, nothing the socket held is lost, and the loop
      ends only for a reason. */
  ghost predicate Explains(B: nat, s: Session, script: seq<ReadResult>, answers: Answers, chunks: seq<seq<Byte>>, r: Received) {
    && |chunks| == r.callbacks && Concat(chunks) == r.read
    && AllFit(B, s, chunks, answers) && r.session == Feed(B, s, chunks, answers)
    && Stream(script) == r.read + Stream(r.rest) && FullButLast(B, s, chunks, answers)
    && (r.fatal || r.full || r.rest == [] || Jammed(B, s) || EndsShort(B, s, chunks, answers))
  }

  lemma {:induction false} ReadsFeed(B: nat, s: Session, script: seq<ReadResult>, answers: Answers)
    returns (chunks: seq<seq<Byte>>)
    ensures Explains(B, s, script, answers, chunks, Reads(B, s, script, answers))
    decreases |Stream(script)|, |script|
  {
    hide Receive, Feed, AllFit, Concat, EndsShort, FullButLast, Stream;
    chunks := [];
    NoChunks(B, s, answers);
    if !Jammed(B, s) && script != [] {
      SkipNonData(script);
      if script[0].Retry? {
        chunks := ReadsFeed(B, s, script[1..], answers);
      } else if !Fatal(script[0]) {
        ReadsData(B, s, script, answers);
        var room := B - End(s);
          var chunk, rest := Part(script[0].bytes, room), AfterRead(script, room);
        var s1 := Receive(B, s, chunk, answers);
        if Jammed(B, s1) || |chunk| < room {
          chunks := [chunk];
          OneChunk(B, s, chunk, answers);
        } else {
          var tail := ReadsFeed(B, s1, rest, answers);
          chunks := [chunk] + tail;
          OneMoreChunk(B, s, script, answers, chunk, rest, tail, Reads(B, s1, rest, answers));
        }
      }
    }
  }

  lemma OneMoreChunk(B: nat, s: Session, script: seq<ReadResult>, answers: Answers,
                     chunk: seq<Byte>, rest: seq<ReadResult>, tail: seq<seq<Byte>>, r: Received)
    requires Fits(B, s, chunk) && Stream(script) == chunk + Stream(rest)
    requires !Jammed(B, Receive(B, s, chunk, answers)) && |chunk| == B - End(s)
    requires Explains(B, Receive(B, s, chunk, answers), rest, answers, tail, r)
    ensures Explains(B, s, script, answers, [chunk] + tail, Ahead(chunk, 1, r))
  {
    hide Receive, Feed, AllFit, Concat, EndsShort, FullButLast, Stream;
    NoChunks(B, Receive(B, s, chunk, answers), answers);
    Prepend(B, s, chunk, tail, answers);
    assert chunk + (r.read + Stream(r.rest)) == chunk + r.read + Stream(r.rest);
  }

  lemma OneChunk(B: nat, s: Session, chunk: seq<Byte>, answers: Answers)
    requires Fits(B, s, chunk)
    ensures AllFit(B, s, [chunk], answers) && Feed(B, s, [chunk], answers) == Receive(B, s, chunk, answers)
    ensures Concat([chunk]) == chunk && FullButLast(B, s, [chunk], answers) && (EndsShort(B, s, [chunk], answers) <==> |chunk| < B - End(s))
  {
    hide Receive;
    NoChunks(B, Receive(B, s, chunk, answers), answers);
    assert [chunk][1..] == [];
  }

  lemma NoChunks(B: nat, s: Session, answers: Answers)
    ensures AllFit(B, s, [], answers) && Feed(B, s, [], answers) == s && Concat([]) == []
    ensures !EndsShort(B, s, [], answers) && FullButLast(B, s, [], answers)
  {
  }

  lemma SkipNonData(script: seq<ReadResult>)
    requires script != []
    ensures !script[0].Data? || script[0] == Data([]) ==> Stream(script) == Stream(script[1..])
  {
  }

  lemma Prepend(B: nat, s: Session, chunk: seq<Byte>, tail: seq<seq<Byte>>, answers: Answers)
    requires Fits(B, s, chunk) && AllFit(B, Receive(B, s, chunk, answers), tail, answers)
    ensures AllFit(B, s, [chunk] + tail, answers) && Concat([chunk] + tail) == chunk + Concat(tail)
    ensures Feed(B, s, [chunk] + tail, answers) == Feed(B, Receive(B, s, chunk, answers), tail, answers)
    ensures EndsShort(B, s, [chunk] + tail, answers) <==>
            if tail == [] then |chunk| < B - End(s) else EndsShort(B, Receive(B, s, chunk, answers), tail, answers)
    ensures |chunk| == B - End(s) && FullButLast(B, Receive(B, s, chunk, answers), tail, answers) ==>
              FullButLast(B, s, [chunk] + tail, answers)
  {
    hide Receive;
    assert ([chunk] + tail)[1..] == tail;
  }

  /** When the buffer is full or a fatal answer ends the loop. */
  lemma {:induction false} ReadsStop(B: nat, s: Session, script: seq<ReadResult>, answers: Answers)
    ensures var r := Reads(B, s, script, answers);
      && (r.full <==> Jammed(B, r.session) && !Jammed(B, s))
      && (Jammed(B, s) ==> r == Received(s, script, [], 0, false, false))
      && Remaining(script, r.rest) && (r.fatal <==> MetFatal(script, r.rest))
    decreases |Stream(script)|, |script|
  {
    hide Receive, Stream, MetFatal, Remaining;
    if Jammed(B, s) || script == [] {
      NothingMet(script);
    } else if Fatal(script[0]) {
      FatalMet(script);
    } else if script[0].Retry? {
      assert |Stream(script[1..])| == |Stream(script)| by { SkipNonData(script); }
      ReadsStop(B, s, script[1..], answers);
      OneAnswer(script, script[1..], Reads(B, s, script[1..], answers).rest);
    } else {
      ReadsData(B, s, script, answers);
      var room := B - End(s);
      var chunk, rest := Part(script[0].bytes, room), AfterRead(script, room);
      var s1 := Receive(B, s, chunk, answers);
      if Jammed(B, s1) || |chunk| < room {
        NothingMet(rest);
        Cut(script, room);
        OneAnswer(script, rest, rest);
      } else {
        ReadsStop(B, s1, rest, answers);
        Cut(script, room);
        OneAnswer(script, rest, Reads(B, s1, rest, answers).rest);
      }
    }
  }

  lemma Cut(script: seq<ReadResult>, room: nat)
    requires script != [] && script[0].Data? && !Fatal(script[0])
    ensures Follows(script, AfterRead(script, room))
  {
  }

  lemma NothingMet(script: seq<ReadResult>)
    ensures Remaining(script, script) && !MetFatal(script, script)
  {
  }

  lemma FatalMet(script: seq<ReadResult>)
    requires script != [] && Fatal(script[0])
    ensures Remaining(script, script[1..]) && MetFatal(script, script[1..])
  {
    assert Fatal(script[0]);
  }

  // ---------------------------------------------------------------- EINTR and EAGAIN

  /** The script without its EINTR and EAGAIN. */
  function NoRetries(script: seq<ReadResult>): seq<ReadResult> {
    if script == [] then [] else (if script[0].Retry? then [] else [script[0]]) + NoRetries(script[1..])
  }

  /** They change nothing: the loop goes on reading as if they had not come. */
  lemma {:induction false} RetriesDoNotMatter(B: nat, s: Session, script: seq<ReadResult>, answers: Answers)
    ensures var r := Reads(B, s, script, answers);
      Reads(B, s, NoRetries(script), answers) == r.(rest := NoRetries(r.rest))
    decreases |Stream(script)|, |script|
  {
    hide Receive, Stream;
    if !Jammed(B, s) && script != [] {
      var tail := NoRetries(script[1..]);
      if script[0].Retry? {
        SkipNonData(script);
        RetriesDoNotMatter(B, s, script[1..], answers);
        assert [] + tail == tail;
      } else {
        assert ([script[0]] + tail)[1..] == tail;
        if !Fatal(script[0]) {
          var room := B - End(s);
          var chunk, rest := Part(script[0].bytes, room), AfterRead(script, room);
          ReadsData(B, s, script, answers);
          ReadsData(B, s, NoRetries(script), answers);
          assert AfterRead(NoRetries(script), room) == NoRetries(rest);
          RetriesDoNotMatter(B, Receive(B, s, chunk, answers), rest, answers);
        }
      }
    }
  }
}
