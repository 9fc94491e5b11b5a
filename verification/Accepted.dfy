/** Nothing but messages is accepted: what the readers take for a message is within the limits,
    and its bytes are the message's encoding, but for numbers written longer than they need be. */
module Accepted {
  import opened Bytes
  import opened VarInt
  import opened Arguments
  import opened GenericMessage
  import opened Messages

  /** The bytes from i to next are e, or there are more of them than e has. */
  predicate Spells(data: seq<byte>, i: nat, next: nat, e: seq<byte>) {
    i + |e| <= next <= |data| && (next == i + |e| ==> At(data, i, e))
  }

  lemma SpellsBoth(data: seq<byte>, i: nat, mid: nat, next: nat, a: seq<byte>, b: seq<byte>)
    requires Spells(data, i, mid, a) && Spells(data, mid, next, b)
    ensures Spells(data, i, next, a + b)
  {
    AtAppend(data, i, a, b);
  }

  lemma SpellsByte(data: seq<byte>, i: nat, b: byte)
    requires i < |data| && data[i] == b
    ensures Spells(data, i, i + 1, [b])
  {
    SliceAt(data, i, [b]);
  }

  /** A type code, and something behind it. */
  lemma SpellsBehind(data: seq<byte>, i: nat, next: nat, b: byte, e: seq<byte>)
    requires i < |data| && data[i] == b && Spells(data, i + 1, next, e)
    ensures Spells(data, i, next, [b] + e)
  {
    hide Spells;
    SpellsByte(data, i, b);
    SpellsBoth(data, i, i + 1, next, [b], e);
  }

  // Words and numbers.

  lemma WordBytesOf(b0: byte, b1: byte, b2: byte, b3: byte)
    ensures 0 <= WordOf(b0, b1, b2, b3) < 0x1_0000_0000 && WordBytes(WordOf(b0, b1, b2, b3)) == [b0, b1, b2, b3]
  {
    var x, y := b1 + 0x100 * (b2 + 0x100 * b3), b2 + 0x100 * b3;
    assert (b0 + 0x100 * x) % 0x100 == b0 && (b0 + 0x100 * x) / 0x100 == x;
    assert (b1 + 0x100 * y) % 0x100 == b1 && (b1 + 0x100 * y) / 0x100 == y;
    assert (b2 + 0x100 * b3) % 0x100 == b2 && (b2 + 0x100 * b3) / 0x100 == b3;
  }

  lemma SpellsWord(data: seq<byte>, i: nat)
    requires i + 4 <= |data|
    ensures Spells(data, i, i + 4, WordBytes(WordAt(data, i)))
  {
    hide WordBytes, WordOf;
    WordBytesOf(data[i], data[i + 1], data[i + 2], data[i + 3]);
    assert data[i..i + 4] == [data[i], data[i + 1], data[i + 2], data[i + 3]];
    SliceAt(data, i, data[i..i + 4]);
  }

  lemma {:induction false} SpellsWords(data: seq<byte>, i: nat, count: nat)
    requires i + 4 * count <= |data|
    ensures Spells(data, i, i + 4 * count, EncodeWords(WordsAt(data, i, count)))
    decreases count
  {
    hide Spells, WordBytes, WordAt;
    if count == 0 {
      SpellsNothing(data, i);
    } else {
      SpellsWord(data, i);
      SpellsWords(data, i + 4, count - 1);
      var rest := WordsAt(data, i + 4, count - 1);
      assert ([WordAt(data, i)] + rest)[1..] == rest;
      SpellsBoth(data, i, i + 4, i + 4 * count, WordBytes(WordAt(data, i)), EncodeWords(rest));
    }
  }

  lemma SpellsNothing(data: seq<byte>, i: nat)
    requires i <= |data|
    ensures Spells(data, i, i, [])
  {
  }

  lemma {:induction false} SpellsDigits(data: seq<byte>, i: nat, groups: nat)
    requires ReadGroups(data, i, groups).Number?
    ensures var r := ReadGroups(data, i, groups); Spells(data, i, i + r.len, Digits(r.value))
    decreases groups
  {
    var r := ReadGroups(data, i, groups);
    if data[i] < 0x80 {
      SpellsByte(data, i, data[i]);
    } else {
      var t := ReadGroups(data, i + 1, groups - 1);
      SpellsDigits(data, i + 1, groups - 1);
      DigitsNext(data[i] - 0x80, t.value);
      if r.value >= 0x80 {
        SpellsBehind(data, i, i + r.len, data[i], Digits(t.value));
      }
    }
  }

  lemma DigitsNext(low: nat, high: nat)
    requires low < 0x80
    ensures (low + 0x80 * high) % 0x80 == low && (low + 0x80 * high) / 0x80 == high
  {
  }

  lemma SpellsNumber(data: seq<byte>, i: nat)
    requires ReadVarInt(data, i).Number?
    ensures var r := ReadVarInt(data, i); Spells(data, i, i + r.len, Written(r.value)) && r.value < LIMIT
  {
    hide ReadGroups, Digits;
    ReadVarIntBound(data, i);
    SpellsDigits(data, i, 4);
    var v := ReadVarInt(data, i).value;
    assert v % LIMIT == v;
  }

  // Texts.

  lemma SpellsText(data: seq<byte>, i: nat)
    requires ReadText(data, i).TextRead?
    ensures var r := ReadText(data, i); Spells(data, i, r.next, EncodeText(r.s)) && |r.s| < LIMIT
  {
    hide ReadVarInt, Written, Spells;
    SpellsNumber(data, i);
    var n := ReadVarInt(data, i);
    var start := i + n.len;
    var s := data[start..start + n.value];
    SpellsItself(data, start, start + n.value);
    SpellsBoth(data, i, start, start + n.value, Written(n.value), s);
  }

  lemma SpellsItself(data: seq<byte>, i: nat, j: nat)
    requires i <= j <= |data|
    ensures Spells(data, i, j, data[i..j])
  {
    SliceAt(data, i, data[i..j]);
  }

  lemma {:induction false} SpellsTexts(data: seq<byte>, i: nat, count: nat)
    requires i <= |data| && ReadTexts(data, i, count).TextsRead?
    ensures var r := ReadTexts(data, i, count); Spells(data, i, r.next, EncodeTexts(r.ss))
    decreases count
  {
    hide Spells, ReadText, EncodeText;
    var r := ReadTexts(data, i, count);
    if count == 0 {
      SpellsNothing(data, i);
    } else {
      var s, mid, tail := SplitTexts(data, i, count, r.ss, r.next);
      SpellsText(data, i);
      SpellsTexts(data, mid, count - 1);
      assert ([s] + tail)[1..] == tail;
      SpellsBoth(data, i, mid, r.next, EncodeText(s), EncodeTexts(tail));
    }
  }

  // Arguments.

  lemma SpellsCounted(data: seq<byte>, i: nat, count: nat, start: nat, next: nat, head: seq<byte>, body: seq<byte>)
    requires |head| == 2 && i + 2 <= |data| && data[i..i + 2] == head
    requires i + 2 <= start && ReadVarInt(data, i + 2) == Number(count, start - (i + 2))
    requires Spells(data, start, next, body)
    ensures Spells(data, i, next, head + (Written(count) + body))
  {
    hide ReadVarInt, Written, Spells;
    SpellsItself(data, i, i + 2);
    SpellsNumber(data, i + 2);
    SpellsBoth(data, i + 2, start, next, Written(count), body);
    SpellsBoth(data, i, i + 2, next, head, Written(count) + body);
  }

  lemma SpellsArray(data: seq<byte>, i: nat, fds: seq<int>)
    requires i < |data| && data[i] == ARRAY && ReadArray(data, i, fds).ValueRead?
    ensures var r := ReadArray(data, i, fds); Spells(data, i, r.next, Encode(r.value))
  {
    hide ReadVarInt, Written, Spells, ReadTexts, EncodeTexts, EncodeWords, WordsAt;
    var r, n := ReadArray(data, i, fds), ReadVarInt(data, i + 2);
    var start, head := i + 2 + n.len, data[i..i + 2];
    assert head == [ARRAY, data[i + 1]];
    if IsWord(data[i + 1]) {
      SpellsWords(data, start, n.value);
      SpellsCounted(data, i, n.value, start, r.next, head, EncodeWords(r.value.ws));
    } else if data[i + 1] == VARCHAR {
      SpellsTexts(data, start, n.value);
      SpellsCounted(data, i, n.value, start, r.next, head, EncodeTexts(r.value.ss));
    } else {
      SpellsNothing(data, start);
      SpellsCounted(data, i, n.value, start, r.next, head, []);
      assert Written(n.value) + [] == Written(n.value);
    }
  }

  lemma SpellsValue(data: seq<byte>, i: nat, fds: seq<int>)
    requires i < |data| && ReadValue(data, i, fds).ValueRead?
    ensures var r := ReadValue(data, i, fds); Spells(data, i, r.next, Encode(r.value))
  {
    hide Spells, ReadText, EncodeText, ReadArray, WordBytes, WordAt;
    var r := ReadValue(data, i, fds);
    if IsWord(data[i]) {
      SpellsWord(data, i + 1);
      SpellsBehind(data, i, i + 5, data[i], WordBytes(WordAt(data, i + 1)));
    } else if data[i] == VARCHAR {
      SpellsText(data, i + 1);
      SpellsBehind(data, i, r.next, VARCHAR, EncodeText(r.value.s));
    } else if data[i] == FD {
      SpellsByte(data, i, FD);
    } else {
      SpellsArray(data, i, fds);
    }
  }

  lemma {:induction false} SpellsArgs(data: seq<byte>, i: nat, fds: seq<int>)
    requires ParseArgs(data, i, fds).Parsed?
    ensures var p := ParseArgs(data, i, fds); Spells(data, i, p.end, EncodeAll(p.values))
    decreases |data| - i
  {
    hide Spells, ReadValue, Encode;
    var p := ParseArgs(data, i, fds);
    if data[i] == END {
      SpellsNothing(data, i);
    } else {
      var v, next, left, tail, tailCuts := SplitArgs(data, i, fds, p.values, p.cuts, p.end, p.rest);
      SpellsValue(data, i, fds);
      SpellsArgs(data, next, left);
      assert ([v] + tail)[1..] == tail;
      SpellsBoth(data, i, next, p.end, Encode(v), EncodeAll(tail));
    }
  }

  // Messages.

  lemma SpellsUint(data: seq<byte>, i: nat)
    requires ReadUint(data, i).WordRead?
    ensures Spells(data, i, i + 5, UintParam(ReadUint(data, i).w))
  {
    hide Spells, WordBytes, WordAt;
    SpellsWord(data, i + 1);
    SpellsBehind(data, i, i + 5, UINT, WordBytes(WordAt(data, i + 1)));
  }

  lemma SpellsVarchar(data: seq<byte>, i: nat)
    requires ReadVarchar(data, i).TextRead?
    ensures var r := ReadVarchar(data, i); Spells(data, i, r.next, [VARCHAR] + EncodeText(r.s)) && |r.s| < LIMIT
  {
    hide Spells, ReadText, EncodeText;
    SpellsText(data, i + 1);
    SpellsBehind(data, i, ReadVarchar(data, i).next, VARCHAR, EncodeText(ReadVarchar(data, i).s));
  }

  /** What an accepted message is. */
  predicate Faithful(data: seq<byte>, offset: nat, fds: seq<int>, r: MessageRead) {
    r.MessageRead? ==>
      && Transmissible(r.msg) && fds == MessageFds(r.msg) + r.rest
      && Spells(data, offset, r.next, EncodeMessage(r.msg))
  }

  lemma WordFaithful(data: seq<byte>, offset: nat, fds: seq<int>)
    requires offset < |data|
    requires data[offset] == HANDSHAKE_ACK || data[offset] == ROUNDTRIP_REQUEST || data[offset] == ROUNDTRIP_DONE
    ensures Faithful(data, offset, fds, ReadWordMessage(data, offset, fds))
  {
    hide Spells, ReadUint, UintParam;
    assert [] + fds == fds;
    var r := ReadUint(data, offset + 1);
    if r.WordRead? && EndAt(data, r.next) {
      SpellsUint(data, offset + 1);
      UintNext(data, offset + 1);
      SpellsByte(data, r.next, END);
      SpellsBoth(data, offset + 1, r.next, r.next + 1, UintParam(r.w), [END]);
      SpellsBehind(data, offset, r.next + 1, data[offset], UintParam(r.w) + [END]);
    }
  }

  lemma UintNext(data: seq<byte>, i: nat)
    ensures ReadUint(data, i).WordRead? ==> ReadUint(data, i).next == i + 5
  {
  }

  lemma NewObjectFaithful(data: seq<byte>, offset: nat, fds: seq<int>)
    requires offset < |data| && data[offset] == NEW_OBJECT
    ensures Faithful(data, offset, fds, ReadNewObject(data, offset, fds))
  {
    hide Spells, ReadUint, UintParam;
    assert [] + fds == fds;
    var i := offset + 1;
    UintNext(data, i);
    UintNext(data, i + 5);
    if ReadNewObject(data, offset, fds).MessageRead? {
      var id, s := ReadUint(data, i).w, ReadUint(data, i + 5).w;
      SpellsUint(data, i);
      SpellsUint(data, i + 5);
      SpellsByte(data, i + 10, END);
      SpellsBoth(data, i + 5, i + 10, i + 11, UintParam(s), [END]);
      SpellsBoth(data, i, i + 5, i + 11, UintParam(id), UintParam(s) + [END]);
      SpellsBehind(data, offset, i + 11, NEW_OBJECT, UintParam(id) + (UintParam(s) + [END]));
    }
  }

  lemma BindFaithful(data: seq<byte>, offset: nat, fds: seq<int>)
    requires offset < |data| && data[offset] == BIND_PROTOCOL
    ensures Faithful(data, offset, fds, ReadBindProtocol(data, offset, fds))
  {
    hide Spells, ReadUint, UintParam, ReadVarchar, EncodeText;
    assert [] + fds == fds;
    var i := offset + 1;
    UintNext(data, i);
    if ReadBindProtocol(data, offset, fds).MessageRead? {
      var s, p := ReadUint(data, i).w, ReadVarchar(data, i + 5);
      var v := ReadUint(data, p.next).w;
      UintNext(data, p.next);
      SpellsUint(data, i);
      SpellsVarchar(data, i + 5);
      SpellsUint(data, p.next);
      SpellsByte(data, p.next + 5, END);
      SpellsBoth(data, p.next, p.next + 5, p.next + 6, UintParam(v), [END]);
      SpellsBoth(data, i + 5, p.next, p.next + 6, [VARCHAR] + EncodeText(p.s), UintParam(v) + [END]);
      Assoc([VARCHAR], EncodeText(p.s), UintParam(v) + [END]);
      var body := [VARCHAR] + (EncodeText(p.s) + (UintParam(v) + [END]));
      SpellsBoth(data, i, i + 5, p.next + 6, UintParam(s), body);
      SpellsBehind(data, offset, p.next + 6, BIND_PROTOCOL, UintParam(s) + body);
    }
  }

  lemma FatalFaithful(data: seq<byte>, offset: nat, fds: seq<int>)
    requires offset < |data| && data[offset] == FATAL_PROTOCOL_ERROR
    ensures Faithful(data, offset, fds, ReadFatalError(data, offset, fds))
  {
    hide Spells, ReadUint, UintParam, ReadVarchar, EncodeText;
    assert [] + fds == fds;
    var i := offset + 1;
    UintNext(data, i);
    UintNext(data, i + 5);
    if ReadFatalError(data, offset, fds).MessageRead? {
      var o, e, t := ReadUint(data, i).w, ReadUint(data, i + 5).w, ReadVarchar(data, i + 10);
      SpellsUint(data, i);
      SpellsUint(data, i + 5);
      SpellsVarchar(data, i + 10);
      SpellsByte(data, t.next, END);
      SpellsBoth(data, i + 10, t.next, t.next + 1, [VARCHAR] + EncodeText(t.s), [END]);
      Assoc([VARCHAR], EncodeText(t.s), [END]);
      var body := [VARCHAR] + (EncodeText(t.s) + [END]);
      SpellsBoth(data, i + 5, i + 10, t.next + 1, UintParam(e), body);
      SpellsBoth(data, i, i + 5, t.next + 1, UintParam(o), UintParam(e) + body);
      SpellsBehind(data, offset, t.next + 1, FATAL_PROTOCOL_ERROR, UintParam(o) + (UintParam(e) + body));
    }
  }

  /** An array header, its count, its elements, and END. */
  lemma SpellsList(data: seq<byte>, offset: nat, head: seq<byte>, count: nat, start: nat, next: nat, body: seq<byte>)
    requires |head| == 3 && At(data, offset, head)
    requires offset + 3 <= start && ReadVarInt(data, offset + 3) == Number(count, start - (offset + 3))
    requires Spells(data, start, next, body) && EndAt(data, next)
    ensures Spells(data, offset, next + 1, head + (Written(count) + (body + [END])))
  {
    hide ReadVarInt, Written, Spells;
    SpellsHead(data, offset, head);
    SpellsNumber(data, offset + 3);
    SpellsByte(data, next, END);
    SpellsBoth(data, start, next, next + 1, body, [END]);
    SpellsBoth(data, offset + 3, start, next + 1, Written(count), body + [END]);
    SpellsBoth(data, offset, offset + 3, next + 1, head, Written(count) + (body + [END]));
  }

  lemma SpellsHead(data: seq<byte>, i: nat, head: seq<byte>)
    requires At(data, i, head)
    ensures Spells(data, i, i + |head|, head)
  {
  }

  lemma BeginFaithful(data: seq<byte>, offset: nat, fds: seq<int>)
    ensures Faithful(data, offset, fds, ReadHandshakeBegin(data, offset, fds))
  {
    hide Spells, At, ReadVarInt, Written, WordsAt, EncodeWords;
    assert [] + fds == fds;
    if ReadHandshakeBegin(data, offset, fds).MessageRead? {
      var n := ReadVarInt(data, offset + 3);
      var start := offset + 3 + n.len;
      SpellsWords(data, start, n.value);
      SpellsList(data, offset, [HANDSHAKE_BEGIN, ARRAY, UINT], n.value, start, start + 4 * n.value,
                 EncodeWords(WordsAt(data, start, n.value)));
    }
  }

  lemma ProtocolsFaithful(data: seq<byte>, offset: nat, fds: seq<int>)
    ensures Faithful(data, offset, fds, ReadHandshakeProtocols(data, offset, fds))
  {
    hide Spells, At, ReadVarInt, Written, ReadTexts, EncodeTexts, ShortTexts;
    assert [] + fds == fds;
    if ReadHandshakeProtocols(data, offset, fds).MessageRead? {
      var n := ReadVarInt(data, offset + 3);
      var start := offset + 3 + n.len;
      var r := ReadTexts(data, start, n.value);
      SpellsTexts(data, start, n.value);
      ReadTextsShort(data, start, n.value, r.ss, r.next);
      SpellsList(data, offset, [HANDSHAKE_PROTOCOLS, ARRAY, VARCHAR], n.value, start, r.next, EncodeTexts(r.ss));
    }
  }

  lemma GenericFaithful(data: seq<byte>, offset: nat, fds: seq<int>)
    ensures Faithful(data, offset, fds, ReadGenericMessage(data, offset, fds))
  {
    hide Spells, WordBytes, WordAt, ParseArgs, EncodeAll, AllSendable, DescriptorsOf;
    var p := ParseArgs(data, offset + 11, fds);
    if ReadGenericMessage(data, offset, fds).MessageRead? {
      var o, k := WordBytes(WordAt(data, offset + 2)), WordBytes(WordAt(data, offset + 7));
      ParseArgsFds(data, offset + 11, fds);
      ParseArgsSendable(data, offset + 11, fds);
      SpellsArgs(data, offset + 11, fds);
      EndOfArgs(data, offset + 11, fds);
      SpellsByte(data, p.end, END);
      SpellsBoth(data, offset + 11, p.end, p.end + 1, EncodeAll(p.values), [END]);
      SpellsWord(data, offset + 7);
      SpellsBehind(data, offset + 6, offset + 11, UINT, k);
      SpellsWord(data, offset + 2);
      SpellsItself(data, offset, offset + 2);
      assert data[offset..offset + 2] == [GENERIC, OBJECT];
      SpellsBoth(data, offset, offset + 2, offset + 6, [GENERIC, OBJECT], o);
      SpellsBoth(data, offset, offset + 6, offset + 11, [GENERIC, OBJECT] + o, [UINT] + k);
      var head := [GENERIC, OBJECT] + o + ([UINT] + k);
      SpellsBoth(data, offset, offset + 11, p.end + 1, head, EncodeAll(p.values) + [END]);
    }
  }

  lemma {:induction false} EndOfArgs(data: seq<byte>, i: nat, fds: seq<int>)
    requires ParseArgs(data, i, fds).Parsed?
    ensures data[ParseArgs(data, i, fds).end] == END
    decreases |data| - i
  {
    hide ReadValue;
    var p := ParseArgs(data, i, fds);
    if data[i] != END {
      var v, next, left, tail, tailCuts := SplitArgs(data, i, fds, p.values, p.cuts, p.end, p.rest);
      EndOfArgs(data, next, left);
    }
  }

  lemma HelloFaithful(data: seq<byte>, offset: nat, fds: seq<int>)
    requires At(data, offset, HelloBytes())
    ensures Faithful(data, offset, fds, MessageRead(Hello, offset + 7, fds))
  {
    assert [] + fds == fds;
  }

  /** Nothing else is accepted. A message that is read is within the limits of what can be sent;
      the descriptors it takes are its own, from the front of the queue; and its bytes are at
      least as many as its encoding has, and if they are as many they are its encoding. */
  lemma ReadMessageSound(data: seq<byte>, offset: nat, fds: seq<int>)
    requires offset < |data| && ReadMessage(data, offset, fds).MessageRead?
    ensures var r := ReadMessage(data, offset, fds); var e := EncodeMessage(r.msg);
      && Transmissible(r.msg) && fds == MessageFds(r.msg) + r.rest && offset + |e| <= r.next <= |data|
      && (r.next == offset + |e| ==> data[offset..r.next] == e)
  {
    var code := data[offset];
    assert Faithful(data, offset, fds, ReadMessage(data, offset, fds)) by {
      hide Faithful, ReadHandshakeBegin, ReadHandshakeProtocols, ReadBindProtocol, ReadNewObject, ReadFatalError,
        ReadGenericMessage, ReadWordMessage, At, HelloBytes;
      if code == SUP {
        HelloFaithful(data, offset, fds);
      } else if code == HANDSHAKE_BEGIN {
        BeginFaithful(data, offset, fds);
      } else if code == HANDSHAKE_ACK || code == ROUNDTRIP_REQUEST || code == ROUNDTRIP_DONE {
        WordFaithful(data, offset, fds);
      } else if code == HANDSHAKE_PROTOCOLS {
        ProtocolsFaithful(data, offset, fds);
      } else if code == BIND_PROTOCOL {
        BindFaithful(data, offset, fds);
      } else if code == NEW_OBJECT {
        NewObjectFaithful(data, offset, fds);
      } else if code == FATAL_PROTOCOL_ERROR {
        FatalFaithful(data, offset, fds);
      } else {
        GenericFaithful(data, offset, fds);
      }
    }
    hide ReadMessage, EncodeMessage, Transmissible, MessageFds, At;
    var r := ReadMessage(data, offset, fds);
    if r.next == offset + |EncodeMessage(r.msg)| {
      AtSlice(data, offset, EncodeMessage(r.msg));
    }
  }
}
