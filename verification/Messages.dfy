/** What the queues of base/src/mqueue.h store: messages of several machine words, so
    that a message copied or overwritten half way is visible as such. */
module Messages {
  type Word = int
  type Msg = seq<Word>

  datatype Option<+T> = None | Some(value: T)

  /** A slot of a queue of any type of message, used from one thread. */
  datatype Message<T> = Message(msg: T, flag: int)

  datatype Slot = Slot(words: Msg, flag: bool)

  /** `num` is history: which page of the unbounded ticket sequence this memory stands for. */
  datatype Page = Page(num: nat, slots: seq<Slot>)

  /** Producer p drew a ticket for msg. */
  datatype Entry = Entry(p: nat, msg: Msg)

  function Zeros(words: nat): (msg: Msg)
    ensures |msg| == words
  {
    seq(words, i => 0)
  }
}
