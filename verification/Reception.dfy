/** What a receiver gets from every kind of message, from its first byte on the wire to its payload. */
module Reception {
  import opened Bytes
  import opened AmfValues
  import opened Chunk
  import opened ChunkStream
  import Amf0
  import Flv

  /** The sender may send it so, and the receiver knows what it needs of the chunk stream. */
  predicate IsSent(form: Form, m: OutMsg, fmt: nat, prev: Sent, csz: nat, info: InfoTable) {
    && 2 <= m.csid <= 65599 && csz > 0 && MayUse(m, fmt, prev)
    && (fmt > 0 ==> ReadIn(form, m.csid) in info && Matches(info[ReadIn(form, m.csid)], prev))
  }

  /** The message comes out with its time, its type and this payload, and what follows it is left. */
  predicate IsReceived(form: Form, m: OutMsg, fmt: nat, prev: Sent, csz: nat, info: InfoTable, rest: Data, payload: Payload)
    requires IsSent(form, m, fmt, prev, csz, info)
  {
    var p := DecodedOne(MessageBytes(form, m, fmt, DeltaOf(m, fmt, prev), csz) + rest, csz, info);
    p.Ok? && p.rest == rest && p.value.ts == m.ts && p.value.typeId == m.typeId && p.value.payload == payload
  }

  lemma PayloadReceived(form: Form, m: OutMsg, fmt: nat, prev: Sent, csz: nat, info: InfoTable, rest: Data, payload: Payload, left: Data)
    requires IsSent(form, m, fmt, prev, csz, info) && DecodedPayload(m.typeId, m.body) == Ok(payload, left)
    ensures IsReceived(form, m, fmt, prev, csz, info, rest, payload)
  {
    var n, i := MessageReceived(form, m, fmt, prev, csz, info, rest);
    ControlFinished(n, payload, left, rest);
  }

  /** Audio and video come whole, under any header type and in chunks of any size. */
  lemma MediaReceived(form: Form, m: OutMsg, fmt: nat, prev: Sent, csz: nat, info: InfoTable, rest: Data)
    requires IsSent(form, m, fmt, prev, csz, info) && (m.typeId == 8 || m.typeId == 9)
    ensures IsReceived(form, m, fmt, prev, csz, info, rest, Media(m.body))
  {
    PayloadReceived(form, m, fmt, prev, csz, info, rest, Media(m.body), []);
  }

  /** An aggregate made of tags comes as these tags. */
  lemma AggregateReceived(form: Form, m: OutMsg, fmt: nat, prev: Sent, csz: nat, info: InfoTable, rest: Data, tags: seq<Flv.Tag>)
    requires IsSent(form, m, fmt, prev, csz, info) && m.typeId == 22 && m.body == Flv.TagsBytes(tags)
    requires forall t :: t in tags ==> Flv.Fits(t)
    ensures IsReceived(form, m, fmt, prev, csz, info, rest, Parts(Flv.SubsOf(tags)))
  {
    Flv.TagsDecoded(tags);
    PayloadReceived(form, m, fmt, prev, csz, info, rest, Parts(Flv.SubsOf(tags)), []);
  }

  /** Commands and data in AMF 0 come as their normal forms. */
  lemma ValuesReceived(form: Form, m: OutMsg, fmt: nat, prev: Sent, csz: nat, info: InfoTable, rest: Data, vs: seq<Value>, ecma: bool)
    requires IsSent(form, m, fmt, prev, csz, info) && (m.typeId == 20 || m.typeId == 18)
    requires Amf0.CleanAll(vs) && Amf0.IsEncodingAll(vs, ecma, m.body)
    ensures IsReceived(form, m, fmt, prev, csz, info, rest, Values(Amf0.NormAll(vs)))
  {
    Amf0.AllRoundTrip(vs, ecma, m.body);
    assert DecodedPayload(m.typeId, m.body) == Ok(Values(Amf0.NormAll(vs)), []);
    PayloadReceived(form, m, fmt, prev, csz, info, rest, Values(Amf0.NormAll(vs)), []);
  }

  /** A command of type 17 is AMF 0 behind one byte of padding, whatever that byte is. */
  lemma PaddedReceived(form: Form, m: OutMsg, fmt: nat, prev: Sent, csz: nat, info: InfoTable, rest: Data,
                       pad: byte, body: Data, vs: seq<Value>, ecma: bool)
    requires IsSent(form, m, fmt, prev, csz, info) && m.typeId == 17 && m.body == [pad] + body
    requires Amf0.CleanAll(vs) && Amf0.IsEncodingAll(vs, ecma, body)
    ensures IsReceived(form, m, fmt, prev, csz, info, rest, Values(Amf0.NormAll(vs)))
  {
    Amf0.AllRoundTrip(vs, ecma, body);
    assert m.body[1..] == body;
    assert DecodedPayload(17, m.body) == Ok(Values(Amf0.NormAll(vs)), []);
    PayloadReceived(form, m, fmt, prev, csz, info, rest, Values(Amf0.NormAll(vs)), []);
  }

  /** Without padding it is read from its start, if what comes behind the first byte is an error; if that is fatal, so is the message. */
  lemma Unpadded(body: Data, vs: seq<Value>, ecma: bool)
    requires Amf0.CleanAll(vs) && Amf0.IsEncodingAll(vs, ecma, body) && body != []
    ensures Amf0.DecodedAll(body[1..]).Err? ==> DecodedPayload(17, body) == Ok(Values(Amf0.NormAll(vs)), [])
    ensures Amf0.DecodedAll(body[1..]).Fatal? ==> DecodedPayload(17, body) == Fatal
  {
    Amf0.AllRoundTrip(vs, ecma, body);
  }

  /** A chunk size comes as the low 31 bits of the number sent, a window size as its low 32 bits. */
  lemma SizesReceived(form: Form, m: OutMsg, fmt: nat, prev: Sent, csz: nat, info: InfoTable, rest: Data, n: int)
    requires IsSent(form, m, fmt, prev, csz, info) && m.body == BE32(n)
    ensures m.typeId == 1 ==> IsReceived(form, m, fmt, prev, csz, info, rest, Size(n % 0x8000_0000))
    ensures m.typeId == 5 ==> IsReceived(form, m, fmt, prev, csz, info, rest, Size(n % 0x1_0000_0000))
  {
    NumberRead(n, []);
    assert BE32(n) + [] == BE32(n);
    LowBits(n);
    if m.typeId == 1 { PayloadReceived(form, m, fmt, prev, csz, info, rest, Size(n % 0x8000_0000), []); }
    if m.typeId == 5 { PayloadReceived(form, m, fmt, prev, csz, info, rest, Size(n % 0x1_0000_0000), []); }
  }

  lemma LowBits(n: int)
    ensures n % 0x1_0000_0000 % 0x8000_0000 == n % 0x8000_0000
  {
    var q := n / 0x1_0000_0000;
    var r := n % 0x1_0000_0000;
    Quotient(n, 0x8000_0000, 2 * q + r / 0x8000_0000, r % 0x8000_0000);
  }

  /** A user control event comes with its numbers. */
  lemma EventReceived(form: Form, m: OutMsg, fmt: nat, prev: Sent, csz: nat, info: InfoTable, rest: Data, event: nat, a: int, b: int)
    requires IsSent(form, m, fmt, prev, csz, info) && m.typeId == 4
    ensures event in {0, 1, 2, 4, 6, 7} && m.body == BE16(event) + BE32(a)
      ==> IsReceived(form, m, fmt, prev, csz, info, rest, Control([event, a % 0x1_0000_0000]))
    ensures event == 3 && m.body == BE16(3) + BE32(a) + BE32(b)
      ==> IsReceived(form, m, fmt, prev, csz, info, rest, Control([3, a % 0x1_0000_0000, b % 0x1_0000_0000]))
    ensures event in {31, 32} && m.body == BE16(event) ==> IsReceived(form, m, fmt, prev, csz, info, rest, Control([event]))
  {
    if event in {0, 1, 2, 4, 6, 7} && m.body == BE16(event) + BE32(a) {
      ControlNumbers(event, a, b);
      PayloadReceived(form, m, fmt, prev, csz, info, rest, Control([event, a % 0x1_0000_0000]), []);
    }
    if event == 3 && m.body == BE16(3) + BE32(a) + BE32(b) {
      ControlNumbers(3, a, b);
      PayloadReceived(form, m, fmt, prev, csz, info, rest, Control([3, a % 0x1_0000_0000, b % 0x1_0000_0000]), []);
    }
    if event in {31, 32} && m.body == BE16(event) {
      BareEvent(event);
      PayloadReceived(form, m, fmt, prev, csz, info, rest, Control([event]), []);
    }
  }

  lemma BareEvent(event: nat)
    requires event in {31, 32}
    ensures DecodedControl(BE16(event)) == Ok([event], [])
  {
    assert BE16(event) + [] == BE16(event);
    TakeAppend(BE16(event), []);
    SmallMod(event, 0x1_0000);
  }
}
