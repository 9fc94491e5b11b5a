/** Cutting a received batch into messages, with one descriptor queue for the whole batch. */
module Framing {
  import opened Bytes
  import opened Arguments
  import opened Messages

  function EncodeBatch(ms: seq<Message>): seq<byte> {
    if ms == [] then [] else EncodeMessage(ms[0]) + EncodeBatch(ms[1..])
  }

  function BatchFds(ms: seq<Message>): seq<int> {
    if ms == [] then [] else MessageFds(ms[0]) + BatchFds(ms[1..])
  }

  predicate AllTransmissible(ms: seq<Message>) {
    forall m :: m in ms ==> Transmissible(m)
  }

  /** The messages of a batch and the descriptors nobody took, or a malformed batch. */
  datatype Cut = BadBatch | Cut(msgs: seq<Message>, stray: seq<int>)

  function CutBatch(data: seq<byte>, needle: nat, fds: seq<int>): Cut
    decreases |data| - needle
  {
    if needle >= |data| then Cut([], fds) else
      match ReadMessage(data, needle, fds)
      case NoMessage => BadBatch
      case MessageRead(m, next, rest) =>
        ReadMessageProgress(data, needle, fds);
        ConsMessage(m, CutBatch(data, next, rest))
  }

  function ConsMessage(m: Message, tail: Cut): Cut {
    match tail
    case BadBatch => BadBatch
    case Cut(ms, stray) => Cut([m] + ms, stray)
  }

  /** The batch standing at needle is cut into exactly its messages, and no descriptor is left. */
  lemma {:induction false} CutEncoded(data: seq<byte>, needle: nat, ms: seq<Message>)
    requires AllTransmissible(ms) && At(data, needle, EncodeBatch(ms)) && needle + |EncodeBatch(ms)| == |data|
    ensures CutBatch(data, needle, BatchFds(ms)) == Cut(ms, [])
    decreases |ms|
  {
    if ms == [] {
    } else {
      var next := CutFirst(data, needle, ms);
      CutEncoded(data, next, ms[1..]);
      assert [ms[0]] + ms[1..] == ms;
    }
  }

  lemma CutHead(data: seq<byte>, needle: nat, m: Message, tail: seq<byte>, more: seq<int>) returns (next: nat)
    requires Transmissible(m) && At(data, needle, EncodeMessage(m) + tail) &&
      needle + |EncodeMessage(m) + tail| == |data|
    ensures needle < next <= |data| && ReadMessage(data, needle, MessageFds(m) + more) == MessageRead(m, next, more)
    ensures At(data, next, tail) && next + |tail| == |data|
  {
    hide At, EncodeMessage, MessageFds, ReadMessage, Transmissible;
    AtAppend(data, needle, EncodeMessage(m), tail);
    ReadMessageEncoded(data, needle, m, more);
    next := needle + |EncodeMessage(m)|;
    ReadMessageProgress(data, needle, MessageFds(m) + more);
  }

  lemma CutFirst(data: seq<byte>, needle: nat, ms: seq<Message>) returns (next: nat)
    requires ms != [] && AllTransmissible(ms) && At(data, needle, EncodeBatch(ms)) &&
      needle + |EncodeBatch(ms)| == |data|
    ensures needle < next <= |data| && needle < |data|
    ensures ReadMessage(data, needle, BatchFds(ms)) == MessageRead(ms[0], next, BatchFds(ms[1..]))
    ensures At(data, next, EncodeBatch(ms[1..])) && next + |EncodeBatch(ms[1..])| == |data|
  {
    hide At, EncodeMessage, MessageFds, ReadMessage, Transmissible;
    assert ms[0] in ms;
    next := CutHead(data, needle, ms[0], EncodeBatch(ms[1..]), BatchFds(ms[1..]));
  }

  lemma {:induction false} BatchAppend(a: seq<Message>, b: seq<Message>)
    ensures EncodeBatch(a + b) == EncodeBatch(a) + EncodeBatch(b)
    ensures BatchFds(a + b) == BatchFds(a) + BatchFds(b)
  {
    hide EncodeMessage, MessageFds;
    if a == [] {
      assert a + b == b;
    } else {
      assert (a + b)[1..] == a[1..] + b;
      BatchAppend(a[1..], b);
      Assoc(EncodeMessage(a[0]), EncodeBatch(a[1..]), EncodeBatch(b));
      Assoc(MessageFds(a[0]), BatchFds(a[1..]), BatchFds(b));
    }
  }

  /** Framing: any list of messages, sent as one batch, is received as that list with every
      message holding its own descriptors and none left over. */
  lemma BatchFraming(ms: seq<Message>)
    requires AllTransmissible(ms)
    ensures CutBatch(EncodeBatch(ms), 0, BatchFds(ms)) == Cut(ms, [])
  {
    var data := EncodeBatch(ms);
    SliceAt(data, 0, data);
    CutEncoded(data, 0, ms);
  }

  /** Where the stream is split does not matter: cut as one batch or as two, the same
      messages come out. */
  lemma BatchSplit(a: seq<Message>, b: seq<Message>)
    requires AllTransmissible(a) && AllTransmissible(b)
    ensures CutBatch(EncodeBatch(a) + EncodeBatch(b), 0, BatchFds(a) + BatchFds(b)) == Cut(a + b, [])
    ensures CutBatch(EncodeBatch(a), 0, BatchFds(a)) == Cut(a, [])
    ensures CutBatch(EncodeBatch(b), 0, BatchFds(b)) == Cut(b, [])
  {
    BatchAppend(a, b);
    BatchFraming(a);
    BatchFraming(b);
    BatchFraming(a + b);
  }
}
