/** `ringBuffer`: a ring for one producing and one consuming thread without locks
    (common/test/tcpserver/ring_buffer/ringBuffer.h), as a state machine that interleaves
    the two threads between any two statements. */
module RingProtocol {
  import opened Arith

  datatype Producer<T> = Resting | MayWrite(value: T) | HasWritten(value: T)
  datatype Consumer<T> = Idle | MayRead | Holding(value: T)

  /** `pushed` and `popped` are history: the values of finished pushes and pops. */
  datatype Ring<T> = Ring(
    data: seq<T>, front: nat, rear: nat,
    producer: Producer<T>, consumer: Consumer<T>, pushed: seq<T>, popped: seq<T>)

  function Next(i: nat, size: nat): (j: nat)
    requires i < size
    ensures j == if i + 1 == size then 0 else i + 1
  {
    (i + 1) % size
  }

  predicate Shaped<T>(s: Ring<T>) {
    s.front < |s.data| && s.rear < |s.data|
  }

  predicate Full<T>(s: Ring<T>)
    requires Shaped(s)
  {
    s.front == Next(s.rear, |s.data|)
  }

  predicate Empty<T>(s: Ring<T>) {
    s.front == s.rear
  }

  datatype Step<T> = TestFull(value: T) | WriteSlot | MoveRear | TestEmpty | ReadSlot | MoveFront

  predicate Can<T>(s: Ring<T>, a: Step<T>) {
    match a
    case TestFull(_) => s.producer.Resting?
    case WriteSlot => s.producer.MayWrite?
    case MoveRear => s.producer.HasWritten?
    case TestEmpty => s.consumer.Idle?
    case ReadSlot => s.consumer.MayRead?
    case MoveFront => s.consumer.Holding?
  }

  /** A push of a full ring and a pop of an empty one return false at once. */
  function Do<T>(s: Ring<T>, a: Step<T>): Ring<T>
    requires Shaped(s) && Can(s, a)
  {
    match a
    case TestFull(v) => if Full(s) then s else s.(producer := MayWrite(v))
    case WriteSlot => s.(data := s.data[s.rear := s.producer.value], producer := HasWritten(s.producer.value))
    case MoveRear => s.(rear := Next(s.rear, |s.data|), producer := Resting, pushed := s.pushed + [s.producer.value])
    case TestEmpty => if Empty(s) then s else s.(consumer := MayRead)
    case ReadSlot => s.(consumer := Holding(s.data[s.front]))
    case MoveFront => s.(front := Next(s.front, |s.data|), consumer := Idle, popped := s.popped + [s.consumer.value])
  }

  function New<T>(data: seq<T>): Ring<T> {
    Ring(data, 0, 0, Resting, Idle, [], [])
  }

  ghost predicate StepAt<T(!new)>(run: seq<Ring<T>>, i: nat)
    requires i + 1 < |run|
  {
    exists a :: Shaped(run[i]) && Can(run[i], a) && run[i + 1] == Do(run[i], a)
  }

  /** A run from a new ring over uninitialised memory. */
  ghost predicate IsRun<T(!new)>(run: seq<Ring<T>>) {
    && |run| > 0 && run[0] == New(run[0].data) && run[0].data != []
    && forall i :: 0 <= i < |run| - 1 ==> StepAt(run, i)
  }

  // ---------------------------------------------------------------- invariant

  /** How many values the ring holds, counting one that is being written. */
  function Used<T>(s: Ring<T>): int {
    |s.pushed| - |s.popped| + if s.producer.Resting? then 0 else 1
  }

  ghost predicate InPlace<T>(s: Ring<T>, i: nat)
    requires Shaped(s)
  {
    |s.popped| <= i < |s.pushed| ==>
      (QuotRem(i, |s.data|); s.data[Rem(i, |s.data|)] == s.pushed[i])
  }

  ghost predicate Inv<T>(s: Ring<T>) {
    && Shaped(s)
    && s.front == Rem(|s.popped|, |s.data|) && s.rear == Rem(|s.pushed|, |s.data|)
    && s.popped <= s.pushed && Used(s) <= |s.data| - 1
    && (forall i: nat :: InPlace(s, i))
    && (s.producer.HasWritten? ==> s.data[s.rear] == s.producer.value)
    && (!s.consumer.Idle? ==> |s.popped| < |s.pushed|)
    && (s.consumer.Holding? ==> |s.popped| < |s.pushed| && s.consumer.value == s.pushed[|s.popped|])
  }

  lemma NextIsRem(n: nat, size: nat)
    requires size > 0
    ensures Rem(n, size) < size && Next(Rem(n, size), size) == Rem(n + 1, size)
  {
    QuotSucc(n, size);
  }

  /** Positions less than a lap apart coincide only for the same value. */
  lemma Apart(m: nat, n: nat, size: nat)
    requires size > 0 && m <= n < m + size
    ensures Rem(m, size) == Rem(n, size) <==> m == n
  {
    if Rem(m, size) == Rem(n, size) {
      WindowUnique(m, m, n, size);
    }
  }

  /** The producer finds the ring full exactly when size - 1 values are in it. */
  lemma FullIsExact<T>(s: Ring<T>)
    requires Inv(s) && s.producer.Resting?
    ensures Full(s) <==> Used(s) == |s.data| - 1
  {
    var size := |s.data|;
    NextIsRem(|s.pushed|, size);
    if Used(s) == size - 1 {
      AddBlocks(|s.popped|, size, 1);
    } else {
      Apart(|s.popped|, |s.pushed| + 1, size);
    }
  }

  lemma EmptyIsExact<T>(s: Ring<T>)
    requires Inv(s)
    ensures Empty(s) <==> |s.popped| == |s.pushed|
  {
    Apart(|s.popped|, |s.pushed|, |s.data|);
  }

  /** A push goes ahead exactly when fewer than size - 1 values are in the ring at the
      moment of its test, and a pop exactly when some finished push is not yet popped. */
  lemma TestsAreExact<T>(s: Ring<T>, value: T)
    requires Inv(s)
    ensures s.producer.Resting? ==>
      (Do(s, TestFull(value)).producer == MayWrite(value) <==> |s.pushed| - |s.popped| < |s.data| - 1)
    ensures s.consumer.Idle? ==> (Do(s, TestEmpty).consumer == MayRead <==> |s.popped| < |s.pushed|)
  {
    if s.producer.Resting? {
      FullIsExact(s);
    }
    EmptyIsExact(s);
  }

  /** Only the producer's write touches the slots, and only a free one. */
  lemma StepInPlace<T>(s: Ring<T>, a: Step<T>, i: nat)
    requires Inv(s) && Can(s, a)
    ensures InPlace(Do(s, a), i)
  {
    assert InPlace(s, i);
    if a.WriteSlot? && |s.popped| <= i < |s.pushed| {
      Apart(i, |s.pushed|, |s.data|);
      NextIsRem(i, |s.data|);
    }
  }

  lemma StepInv<T>(s: Ring<T>, a: Step<T>)
    requires Inv(s) && Can(s, a)
    ensures Inv(Do(s, a)) && |Do(s, a).data| == |s.data|
  {
    hide Rem, Quot;
    var s' := Do(s, a);
    forall i: nat ensures InPlace(s', i) {
      StepInPlace(s, a, i);
    }
    hide InPlace;
    match a {
      case TestFull(_) => FullIsExact(s);
      case TestEmpty => EmptyIsExact(s);
      case WriteSlot =>
      case MoveRear => NextIsRem(|s.pushed|, |s.data|);
      case ReadSlot => ReadsOldest(s);
      case MoveFront => NextIsRem(|s.popped|, |s.data|);
    }
  }

  lemma ReadsOldest<T>(s: Ring<T>)
    requires Inv(s) && |s.popped| < |s.pushed|
    ensures s.data[s.front] == s.pushed[|s.popped|]
  {
    assert InPlace(s, |s.popped|);
  }

  lemma {:induction false} RunInv<T(!new)>(run: seq<Ring<T>>, i: nat)
    requires IsRun(run) && i < |run|
    ensures Inv(run[i]) && |run[i].data| == |run[0].data|
  {
    if i > 0 {
      RunInv(run, i - 1);
      assert StepAt(run, i - 1);
      var a :| Can(run[i - 1], a) && run[i] == Do(run[i - 1], a);
      StepInv(run[i - 1], a);
    }
  }

  /** Main theorem: in every state of every run the values popped are a prefix of those
      pushed, at most size - 1 values are held, and no slot is being written by the
      producer while the consumer reads it. */
  lemma SingleProducerSingleConsumer<T(!new)>(run: seq<Ring<T>>, i: nat)
    requires IsRun(run) && i < |run|
    ensures run[i].popped <= run[i].pushed
    ensures Used(run[i]) <= |run[0].data| - 1
    ensures run[i].producer.MayWrite? && run[i].consumer.MayRead? ==> run[i].front != run[i].rear
  {
    RunInv(run, i);
    EmptyIsExact(run[i]);
  }
}

/** The same ring as a class, used from one thread: a bounded FIFO queue. */
module RingBuffers {
  import opened RingProtocol

  class RingBuffer<T> {
    const data: array<T>
    var front: nat
    var rear: nat
    ghost var Contents: seq<T>

    /** Slot of the k-th value held. */
    function At(k: nat): nat
      reads this
    {
      if front + k < data.Length then front + k else front + k - data.Length
    }

    ghost predicate Valid()
      reads this, data
    {
      && front < data.Length && rear < data.Length
      && |Contents| < data.Length && rear == At(|Contents|)
      && forall k :: 0 <= k < |Contents| ==> data[At(k)] == Contents[k]
    }

    constructor (size: nat, any: T)
      requires size >= 1
      ensures Valid() && fresh(data) && data.Length == size && Contents == []
    {
      data := new T[size](_ => any);
      front, rear, Contents := 0, 0, [];
    }

    predicate IsEmpty()
      reads this, data
      requires Valid()
      ensures IsEmpty() <==> Contents == []
    {
      front == rear
    }

    predicate IsFull()
      reads this, data
      requires Valid()
      ensures IsFull() <==> |Contents| == data.Length - 1
    {
      front == Next(rear, data.Length)
    }

    method Push(value: T) returns (ok: bool)
      requires Valid()
      modifies this, data
      ensures Valid()
      ensures ok <==> |old(Contents)| < data.Length - 1
      ensures Contents == old(Contents) + if ok then [value] else []
    {
      if IsFull() {
        return false;
      }
      data[rear] := value;
      rear := Next(rear, data.Length);
      Contents := Contents + [value];
      return true;
    }

    /** `value` is left as it was when there is nothing to pop. */
    method Pop(given: T) returns (ok: bool, value: T)
      requires Valid()
      modifies this
      ensures Valid()
      ensures ok <==> old(Contents) != []
      ensures if ok then old(Contents) == [value] + Contents else value == given && Contents == []
    {
      if IsEmpty() {
        return false, given;
      }
      value := data[front];
      front := Next(front, data.Length);
      Contents := Contents[1..];
      return true, value;
    }
  }
}
