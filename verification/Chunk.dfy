/** The RTMP chunk stream: chunk headers, message reassembly and message bodies, as functions of the bytes received. */
module Chunk {
  import opened Bytes
  import opened AmfValues
  import Amf0

  const EXTENDED := 0xff_ffff

  // ---------- Basic header ----------

  function BasicHeader(fmt: nat, csid: int): Data {
    if 2 <= csid <= 63 then [64 * (fmt % 4) + csid]
    else if 64 <= csid <= 319 then [64 * (fmt % 4), csid - 64]
    else if 320 <= csid <= 65599 then [64 * (fmt % 4) + 1, (csid % 256 - 64) % 256, csid / 256 % 256]
    else []
  }

  /** `high << 8 | low + 64`, where the right operand may have nine bits. */
  function JoinCsid(high: byte, low: byte): nat {
    if low as int + 64 < 256 then 256 * (high as int) + low + 64
    else 256 * (if high % 2 == 1 then high as int else high as int + 1) + low - 192
  }

  datatype Basic = Basic(format: nat, csid: nat, size: nat)

  function DecodedBasic(bs: Data): (p: Parse<Basic>)
    ensures p.Ok? ==> p.value.format < 4 && |bs| - |p.rest| == p.value.size > 0
  {
    var (b0, r) :- Take(bs, 1);
    var format, id := b0[0] / 64, b0[0] % 64;
    if id == 0 then
      var (b1, r1) :- Take(r, 1);
      Ok(Basic(format, b1[0] as int + 64, 2), r1)
    else if id == 1 then
      var (b1, r1) :- Take(r, 2);
      Ok(Basic(format, JoinCsid(b1[1], b1[0]), 3), r1)
    else
      Ok(Basic(format, id, 1), r)
  }

  /** The chunk stream ids that come back as they were sent. The encoder subtracts 64 from the low byte alone,
      so the others lose or gain a carry. */
  predicate CsidKept(csid: int) {
    2 <= csid <= 65599 && (csid <= 319 || csid % 256 >= 64 || csid / 256 % 2 == 1)
  }

  function CsidRead(csid: int): nat
    requires 2 <= csid <= 65599
  {
    if CsidKept(csid) then csid else 256 * (csid / 256 % 256 + 1) + csid % 256
  }

  lemma BasicRoundTrip(fmt: nat, csid: int, rest: Data)
    requires fmt < 4 && 2 <= csid <= 65599
    ensures DecodedBasic(BasicHeader(fmt, csid) + rest) == Ok(Basic(fmt, CsidRead(csid), |BasicHeader(fmt, csid)|), rest)
    ensures CsidRead(csid) == csid <==> CsidKept(csid)
  {
    if csid <= 63 {
      OneByte(64 * fmt + csid, rest);
    } else if csid <= 319 {
      TwoBytes(64 * fmt, csid - 64, rest);
    } else {
      ThreeBytes(64 * fmt + 1, (csid % 256 - 64) % 256, csid / 256 % 256, rest);
      JoinedCsid(csid);
    }
  }

  lemma OneByte(a: byte, rest: Data)
    requires a % 64 > 1
    ensures DecodedBasic([a] + rest) == Ok(Basic(a / 64, a % 64, 1), rest)
  {
    TakeAppend([a], rest);
  }

  lemma TwoBytes(a: byte, low: byte, rest: Data)
    requires a % 64 == 0
    ensures DecodedBasic([a, low] + rest) == Ok(Basic(a / 64, low as int + 64, 2), rest)
  {
    assert [a, low] + rest == [a] + ([low] + rest);
    TakeAppend([a], [low] + rest);
    TakeAppend([low], rest);
  }

  lemma ThreeBytes(a: byte, low: byte, high: byte, rest: Data)
    requires a % 64 == 1
    ensures DecodedBasic([a, low, high] + rest) == Ok(Basic(a / 64, JoinCsid(high, low), 3), rest)
  {
    assert [a, low, high] + rest == [a] + ([low, high] + rest);
    TakeAppend([a], [low, high] + rest);
    TakeAppend([low, high], rest);
  }

  lemma JoinedCsid(csid: int)
    requires 320 <= csid <= 65599
    ensures JoinCsid(csid / 256 % 256, (csid % 256 - 64) % 256) == CsidRead(csid)
    ensures CsidRead(csid) == csid <==> CsidKept(csid)
  {
    var low, high := csid % 256, csid / 256;
    assert csid == 256 * high + low && 1 <= high <= 256;
    assert (low - 64) % 256 == if low >= 64 then low - 64 else low + 192;
    assert high % 256 == if high == 256 then 0 else high;
  }

  /** Who writes a header: this code, or a peer that follows section 5.3.1.1 of RTMP 1.0, which takes 64 from the whole id and
      may write ids up to 319 in three bytes, too. */
  datatype Form = Own | Standard | Long

  function HeaderIn(form: Form, fmt: nat, csid: int): Data {
    if form == Own || csid < 64 || csid > 65599 || (form == Standard && csid <= 319) then BasicHeader(fmt, csid)
    else [64 * (fmt % 4) + 1, (csid - 64) % 256, (csid - 64) / 256]
  }

  function ReadIn(form: Form, csid: int): nat
    requires 2 <= csid <= 65599
  {
    if CsidKept(csid) then csid else if form == Own then CsidRead(csid) else csid - 256
  }

  /** A peer's ids are read by the same rule as one's own: the same ones survive, though others are read differently. */
  lemma HeaderRoundTrip(form: Form, fmt: nat, csid: int, rest: Data)
    requires fmt < 4 && 2 <= csid <= 65599
    ensures DecodedBasic(HeaderIn(form, fmt, csid) + rest) == Ok(Basic(fmt, ReadIn(form, csid), |HeaderIn(form, fmt, csid)|), rest)
    ensures ReadIn(form, csid) == csid <==> CsidKept(csid)
  {
    BasicRoundTrip(fmt, csid, rest);
    if form != Own && csid >= 64 && (form == Long || csid >= 320) {
      ThreeBytes(64 * fmt + 1, (csid - 64) % 256, (csid - 64) / 256, rest);
      StandardJoined(csid);
    }
  }

  lemma StandardJoined(csid: int)
    requires 64 <= csid <= 65599
    ensures JoinCsid((csid - 64) / 256, (csid - 64) % 256) == if CsidKept(csid) then csid else csid - 256
  {
    var high, low := (csid - 64) / 256, (csid - 64) % 256;
    assert csid == 256 * high + (low + 64);
    if low < 192 {
      Quotient(csid, 256, high, low + 64);
    } else {
      Quotient(csid, 256, high + 1, low - 192);
    }
  }

  // ---------- Message headers ----------

  /** What is remembered of the latest message of a chunk stream. */
  datatype ChunkInfo = ChunkInfo(field: nat, delta: nat, actual: nat, length: nat, typeId: byte, streamId: nat)

  type InfoTable = map<nat, ChunkInfo>

  /** `rtmpMsg`: a message while it is being put together. */
  datatype Msg = Msg(
    format: nat, formatOrigin: nat, csid: nat, csidOrigin: nat,
    field: nat, delta: nat, ex: nat, actual: nat,
    length: nat, typeId: byte, streamId: nat, body: Data,
    reading: bool, hdr: nat, splits: nat)

  const NoMsg := Msg(0, 0, 0, 0, 0, 0, 0, 0, 0, 0, 0, [], false, 0, 0)

  function WithBasic(m: Msg, b: Basic): Msg {
    var m1 := m.(format := b.format, csid := b.csid, hdr := m.hdr + b.size);
    if m.reading then m1 else m1.(formatOrigin := b.format, csidOrigin := b.csid)
  }

  function DecodedTimestamp(bs: Data, m: Msg): Parse<Msg> {
    var (t, r) :- Take(bs, 3);
    Ok(m.(field := FromBE24(t), hdr := m.hdr + 3), r)
  }

  function DecodedLengthAndType(bs: Data, m: Msg): Parse<Msg> {
    var (l, r) :- Take(bs, 3);
    var (t, r1) :- Take(r, 1);
    Ok(m.(length := FromBE24(l), typeId := t[0], hdr := m.hdr + 4), r1)
  }

  function DecodedStreamId(bs: Data, m: Msg): Parse<Msg> {
    var (s, r) :- Take(bs, 4);
    Ok(m.(streamId := FromLE32(s), hdr := m.hdr + 4), r)
  }

  function DecodedFields(bs: Data, m: Msg): (p: Parse<Msg>)
    ensures p.Ok? ==> |bs| - |p.rest| == p.value.hdr - m.hdr >= 0
    ensures p.Ok? ==> p.value.body == m.body && p.value.reading == m.reading
  {
    if m.format == 0 then
      var (m1, r1) :- DecodedTimestamp(bs, m);
      var (m2, r2) :- DecodedLengthAndType(r1, m1);
      DecodedStreamId(r2, m2)
    else if m.format == 1 then
      var (m1, r1) :- DecodedTimestamp(bs, m);
      DecodedLengthAndType(r1, m1)
    else if m.format == 2 then
      DecodedTimestamp(bs, m)
    else if m.reading then
      if m.csid != m.csidOrigin then Err(Malformed) else Ok(m.(splits := m.splits + 1), bs)
    else
      Ok(m, bs)
  }

  function DecodedHeader(bs: Data, m: Msg): (p: Parse<Msg>)
    ensures p.Ok? ==> |bs| - |p.rest| == p.value.hdr - m.hdr > 0
    ensures p.Ok? ==> p.value.body == m.body && p.value.reading == m.reading
  {
    var (b, r) :- DecodedBasic(bs);
    DecodedFields(r, WithBasic(m, b))
  }

  function DecodedEx(bs: Data, m: Msg): (p: Parse<Msg>)
    ensures p.Ok? ==> |bs| - |p.rest| == p.value.hdr - m.hdr == 4
    ensures p.Ok? ==> p.value == m.(hdr := p.value.hdr, ex := p.value.ex)
  {
    var (t, r) :- Take(bs, 4);
    Ok(m.(ex := if m.reading then m.ex else FromBE32(t), hdr := m.hdr + 4), r)
  }

  predicate IsExtended(m: Msg, prev: ChunkInfo) {
    m.field == EXTENDED || (m.formatOrigin == 3 && prev.field == EXTENDED)
  }

  /** Absolute timestamp and delta. After an extended timestamp a new message of type 3 takes
      the extended value it repeats as absolute. */
  function Timed(m: Msg, prev: ChunkInfo): Msg {
    if IsExtended(m, prev) then
      match m.formatOrigin
      case 0 => m.(actual := m.ex, delta := m.ex)
      case 3 => m.(actual := m.ex, delta := m.ex, field := EXTENDED)
      case _ => m.(actual := prev.actual + m.ex, delta := m.ex)
    else
      match m.formatOrigin
      case 0 => m.(actual := m.field, delta := m.field)
      case 3 => m.(actual := prev.actual + prev.delta, delta := prev.delta)
      case _ => m.(actual := prev.actual + m.field, delta := m.field)
  }

  function Inherited(m: Msg, prev: ChunkInfo): Msg {
    match m.formatOrigin
    case 0 => m
    case 1 => m.(streamId := prev.streamId)
    case _ => m.(length := prev.length, typeId := prev.typeId, streamId := prev.streamId)
  }

  function InfoOf(m: Msg): ChunkInfo {
    ChunkInfo(m.field, m.delta, m.actual, m.length, m.typeId, m.streamId)
  }

  const NoInfo := ChunkInfo(0, 0, 0, 0, 0, 0)

  function PrevOf(m: Msg, info: InfoTable): ChunkInfo {
    if m.formatOrigin != 0 && m.csidOrigin in info then info[m.csidOrigin] else NoInfo
  }

  /** The first header of a message, completed from what is remembered of its chunk stream. */
  function Started(bs: Data, info: InfoTable): (p: Parse<Msg>)
    ensures p.Ok? ==> |bs| - |p.rest| == p.value.hdr > 0 && p.value.body == [] && p.value.reading
  {
    var (m, r) :- DecodedHeader(bs, NoMsg);
    if m.formatOrigin != 0 && m.csidOrigin !in info then Err(Malformed)
    else Completed(r, m, PrevOf(m, info))
  }

  function Completed(bs: Data, m: Msg, prev: ChunkInfo): (p: Parse<Msg>)
    ensures p.Ok? ==> |bs| - |p.rest| == p.value.hdr - m.hdr >= 0
    ensures p.Ok? ==> p.value.body == m.body && p.value.reading && p.value.csid == m.csid
  {
    var (m1, r1) :- if IsExtended(m, prev) then DecodedEx(bs, m) else Ok(m, bs);
    Ok(Inherited(Timed(m1, prev), prev).(reading := true), r1)
  }

  function InfoAfter(bs: Data, info: InfoTable): InfoTable {
    match Started(bs, info)
    case Ok(m, _) => info[m.csid := InfoOf(m)]
    case _ => info
  }

  // ---------- Bodies ----------

  function BodyPart(bs: Data, m: Msg, csz: nat): (p: Parse<Msg>)
    ensures p.Ok? ==> |bs| - |p.rest| == |p.value.body| - |m.body| && p.value == m.(body := p.value.body)
  {
    var rem := m.length - |m.body|;
    if rem < 0 then Ok(m, bs)
    else
      var (part, r) :- Take(bs, if rem > csz then csz else rem);
      Ok(m.(body := m.body + part), r)
  }

  function DecodedBody(bs: Data, m: Msg, csz: nat): (p: Parse<Msg>)
    ensures p.Ok? ==> |bs| - |p.rest| == p.value.hdr + |p.value.body| - m.hdr - |m.body|
    ensures p.Ok? ==> p.value.length <= |p.value.body| && |p.rest| <= |bs|
    decreases |bs|
  {
    var (m1, r1) :- BodyPart(bs, m, csz);
    if m1.length <= |m1.body| then Ok(m1, r1)
    else
      var (m2, r2) :- DecodedHeader(r1, m1);
      var (m3, r3) :- if m2.field == EXTENDED then DecodedEx(r2, m2) else Ok(m2, r2);
      DecodedBody(r3, m3, csz)
  }

  function WithBody(p: Parse<Msg>, csz: nat): (q: Parse<Msg>)
    ensures q.Ok? ==> p.Ok? && |q.rest| <= |p.rest|
  {
    if p.Ok? then DecodedBody(p.rest, p.value, csz) else p
  }

  /** One message from the front of `bs`. */
  function DecodedMsg(bs: Data, csz: nat, info: InfoTable): (p: Parse<Msg>)
    ensures p.Ok? ==> |p.rest| < |bs|
  {
    WithBody(Started(bs, info), csz)
  }

  // ---------- Message bodies ----------

  datatype SubMsg = SubMsg(typeId: byte, ts: nat, data: Data)

  datatype SubHead = SubHead(typeId: byte, length: nat, ts: nat)

  function DecodedSubHead(bs: Data): (p: Parse<SubHead>)
    ensures p.Ok? ==> |bs| - |p.rest| == 11
  {
    var (t, r0) :- Take(bs, 1);
    var (plen, r1) :- Take(r0, 3);
    var (ts0, r2) :- Take(r1, 3);
    var (ts1, r3) :- Take(r2, 1);
    var (_, r4) :- Take(r3, 3);
    Ok(SubHead(t[0], FromBE24(plen), 0x100_0000 * (ts1[0] as int) + FromBE24(ts0)), r4)
  }

  /** A message inside an aggregate: its header, its data and a back pointer. */
  function DecodedSub(bs: Data): (p: Parse<SubMsg>)
    ensures p.Ok? ==> |bs| - |p.rest| == 15 + |p.value.data|
  {
    var (h, r) :- DecodedSubHead(bs);
    var (data, r1) :- Take(r, h.length);
    var (_, r2) :- Take(r1, 4);
    Ok(SubMsg(h.typeId, h.ts, data), r2)
  }

  function DecodedAggregate(bs: Data): (p: Parse<seq<SubMsg>>)
    decreases |bs|
  {
    if bs == [] then Ok([], [])
    else
      var (m, r) :- DecodedSub(bs);
      Prepended([m], DecodedAggregate(r))
  }

  /** User control: an event and, for most events, one or two numbers. */
  function DecodedControl(bs: Data): Parse<seq<nat>> {
    var (e, r) :- Take(bs, 2);
    var event := FromBE16(e);
    if event in {31, 32} then Ok([event], r)
    else if event in {0, 1, 2, 4, 6, 7} then
      var (n, r1) :- Take(r, 4);
      Ok([event, FromBE32(n)], r1)
    else if event == 3 then
      var (sid, r1) :- Take(r, 4);
      var (len, r2) :- Take(r1, 4);
      Ok([event, FromBE32(sid), FromBE32(len)], r2)
    else Err(Malformed)
  }

  datatype Payload =
    | Parts(parts: seq<SubMsg>)
    | Media(data: Data)
    | Size(n: nat)
    | Bandwidth(window: nat, limit: nat)
    | Values(values: seq<Value>)
    | Control(numbers: seq<nat>)

  function DecodedPayload(typeId: byte, body: Data): (p: Parse<Payload>)
    ensures p.Ok? && p.value.Media? ==> typeId == 8 || typeId == 9
  {
    match typeId
    case 22 => var (ms, r) :- DecodedAggregate(body); Ok(Parts(ms), r)
    case 8 => Ok(Media(body), [])
    case 9 => Ok(Media(body), [])
    case 5 => var (n, r) :- Take(body, 4); Ok(Size(FromBE32(n)), r)
    case 6 => var (n, r) :- Take(body, 4); var (l, r1) :- Take(r, 1); Ok(Bandwidth(FromBE32(n), l[0]), r1)
    case 20 => var (vs, r) :- Amf0.DecodedAmf0(body, false); Ok(Values(vs), r)
    case 17 => var (vs, r) :- Amf0.DecodedAmf0(body, true); Ok(Values(vs), r)
    case 18 => var (vs, r) :- Amf0.DecodedAmf0(body, false); Ok(Values(vs), r)
    case 1 => var (n, r) :- Take(body, 4); Ok(Size(FromBE32(n) % 0x8000_0000), r)
    case 4 => var (ns, r) :- DecodedControl(body); Ok(Control(ns), r)
    case _ => Err(Malformed)
  }

  /** What `decodeOne` returns; `size` is its count of bytes read. */
  datatype Received = Received(ts: nat, typeId: byte, payload: Payload, size: nat)

  function Finished(p: Parse<Msg>): (q: Parse<Received>)
    ensures q.Ok? && q.value.payload.Media? ==> q.value.typeId == 8 || q.value.typeId == 9
    ensures q.Ok? ==> p.Ok? && q.rest == p.rest
  {
    var (m, r) :- p;
    var (payload, _) :- DecodedPayload(m.typeId, m.body);
    Ok(Received(m.actual, m.typeId, payload, m.hdr + m.length), r)
  }

  function DecodedOne(bs: Data, csz: nat, info: InfoTable): (p: Parse<Received>)
    ensures p.Ok? && p.value.payload.Media? ==> p.value.typeId == 8 || p.value.typeId == 9
    ensures p.Ok? ==> |p.rest| < |bs|
  {
    Finished(DecodedMsg(bs, csz, info))
  }

  // ---------- Byte accounting ----------

  /** Every continuation header `DecodedBody` meets is of type 3. */
  predicate Type3Only(bs: Data, m: Msg, csz: nat)
    decreases |bs|
  {
    match BodyPart(bs, m, csz)
    case Ok(m1, r1) =>
      m1.length <= |m1.body| ||
      (match DecodedHeader(r1, m1)
       case Ok(m2, r2) =>
         m2.format == 3 &&
         (match if m2.field == EXTENDED then DecodedEx(r2, m2) else Ok(m2, r2)
          case Ok(m3, r3) => Type3Only(r3, m3, csz)
          case _ => true)
       case _ => true)
    case _ => true
  }

  lemma Header3Keeps(bs: Data, m: Msg)
    requires DecodedHeader(bs, m).Ok? && DecodedHeader(bs, m).value.format == 3
    ensures DecodedHeader(bs, m).value.length == m.length
  {
  }

  lemma BodyStep(bs: Data, m: Msg, csz: nat) returns (m3: Msg, r3: Data)
    requires Type3Only(bs, m, csz) && DecodedBody(bs, m, csz).Ok?
    requires BodyPart(bs, m, csz).value.length > |BodyPart(bs, m, csz).value.body|
    ensures DecodedBody(bs, m, csz) == DecodedBody(r3, m3, csz) && Type3Only(r3, m3, csz)
    ensures |r3| < |bs| && m3.length == m.length && m3.body == BodyPart(bs, m, csz).value.body
  {
    var m1, r1 := BodyPart(bs, m, csz).value, BodyPart(bs, m, csz).rest;
    var h := DecodedHeader(r1, m1);
    Header3Keeps(r1, m1);
    var p := if h.value.field == EXTENDED then DecodedEx(h.rest, h.value) else h;
    m3, r3 := p.value, p.rest;
  }

  lemma {:induction false} Type3Exact(bs: Data, m: Msg, csz: nat)
    requires Type3Only(bs, m, csz) && |m.body| <= m.length && DecodedBody(bs, m, csz).Ok?
    ensures |DecodedBody(bs, m, csz).value.body| == DecodedBody(bs, m, csz).value.length == m.length
    decreases |bs|
  {
    var m1 := BodyPart(bs, m, csz).value;
    if m1.length > |m1.body| {
      var m3, r3 := BodyStep(bs, m, csz);
      Type3Exact(r3, m3, csz);
    }
  }

  /** The size reported is the number of bytes consumed exactly when no continuation header shrank the message,
      and continuation headers of type 3 never do. */
  lemma SizeIsConsumed(bs: Data, csz: nat, info: InfoTable)
    requires DecodedOne(bs, csz, info).Ok?
    ensures var m := DecodedMsg(bs, csz, info).value;
      var p := DecodedOne(bs, csz, info);
      (p.value.size == |bs| - |p.rest| <==> m.length == |m.body|)
      && p.value.size <= |bs| - |p.rest|
    ensures Type3Only(Started(bs, info).rest, Started(bs, info).value, csz)
      ==> DecodedOne(bs, csz, info).value.size == |bs| - |DecodedOne(bs, csz, info).rest|
  {
    var m, r := Started(bs, info).value, Started(bs, info).rest;
    if Type3Only(r, m, csz) {
      Type3Exact(r, m, csz);
    }
  }

  // ---------- Independence ----------

  lemma HeaderCsid(bs: Data)
    requires DecodedHeader(bs, NoMsg).Ok?
    ensures DecodedHeader(bs, NoMsg).value.csidOrigin == DecodedHeader(bs, NoMsg).value.csid == DecodedBasic(bs).value.csid
  {
  }

  /** A message depends on what is remembered of its own chunk stream only, and only that is updated. */
  lemma Independence(bs: Data, csz: nat, info: InfoTable, other: InfoTable)
    requires DecodedBasic(bs).Ok?
    requires var c := DecodedBasic(bs).value.csid;
      (c in info <==> c in other) && (c in info ==> info[c] == other[c])
    ensures Started(bs, info) == Started(bs, other)
    ensures DecodedOne(bs, csz, info) == DecodedOne(bs, csz, other)
    ensures InfoAfter(bs, info) - {DecodedBasic(bs).value.csid} == info - {DecodedBasic(bs).value.csid}
  {
    var c := DecodedBasic(bs).value.csid;
    var h := DecodedHeader(bs, NoMsg);
    if h.Ok? {
      HeaderCsid(bs);
    }
  }
}
