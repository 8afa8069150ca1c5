/** The sending side of a chunk stream, and what the receiving side makes of it.
    The source itself only sends headers of type 0 and 3; types 1 and 2 follow sections 5.3.1 and 5.4 of the RTMP 1.0 specification. */
module ChunkStream {
  import opened Bytes
  import opened AmfValues
  import opened Chunk
  import Amf0

  // ---------- Chunks of one body ----------

  /** A message body cut into chunks, each but the first behind a type 3 header and the extended timestamp, if any. */
  function Chunks(form: Form, csid: int, ext: Data, csz: nat, body: Data): Data
    requires csz > 0
    decreases |body|
  {
    if |body| <= csz then body
    else body[..csz] + (HeaderIn(form, 3, csid) + ext + Chunks(form, csid, ext, csz, body[csz..]))
  }

  /** Continuation headers of type 3 leave alone what the first header said. */
  predicate SameHead(m: Msg, n: Msg) {
    m.actual == n.actual && m.typeId == n.typeId && m.streamId == n.streamId && m.length == n.length && m.csidOrigin == n.csidOrigin
  }

  /** Reassembly: the decoder finds the body again, counts the header bytes and stops where the chunks end. */
  lemma {:induction false} BodyReceived(form: Form, m: Msg, csid: int, ext: Data, csz: nat, body: Data, rest: Data)
    requires 2 <= csid <= 65599 && csz > 0
    requires m.reading && m.csidOrigin == ReadIn(form, csid) && m.length == |m.body| + |body|
    requires |ext| == if m.field == EXTENDED then 4 else 0
    ensures var bs := Chunks(form, csid, ext, csz, body);
      var p := DecodedBody(bs + rest, m, csz);
      p.Ok? && p.rest == rest && p.value.body == m.body + body && SameHead(p.value, m)
    decreases |body|
  {
    if |body| <= csz {
      LastPart(m, csz, body, rest);
    } else {
      var m3, tail := NextChunk(form, m, csid, ext, csz, body, rest);
      BodyReceived(form, m3, csid, ext, csz, body[csz..], rest);
      JoinParts(m.body, body, csz);
    }
  }

  lemma JoinParts(a: Data, b: Data, n: nat)
    requires n <= |b|
    ensures a + b[..n] + b[n..] == a + b
  {
  }

  lemma ChunkBytes(form: Form, csid: int, ext: Data, csz: nat, body: Data, rest: Data)
    requires 0 < csz < |body|
    ensures Chunks(form, csid, ext, csz, body) + rest
            == body[..csz] + (HeaderIn(form, 3, csid) + (ext + (Chunks(form, csid, ext, csz, body[csz..]) + rest)))
  {
  }

  lemma NextChunk(form: Form, m: Msg, csid: int, ext: Data, csz: nat, body: Data, rest: Data) returns (m3: Msg, tail: Data)
    requires 2 <= csid <= 65599 && 0 < csz < |body|
    requires m.reading && m.csidOrigin == ReadIn(form, csid) && m.length == |m.body| + |body|
    requires |ext| == if m.field == EXTENDED then 4 else 0
    ensures tail == Chunks(form, csid, ext, csz, body[csz..]) + rest
    ensures DecodedBody(Chunks(form, csid, ext, csz, body) + rest, m, csz) == DecodedBody(tail, m3, csz)
    ensures SameHead(m3, m) && m3.reading && m3.field == m.field && m3.body == m.body + body[..csz]
  {
    var bs := Chunks(form, csid, ext, csz, body) + rest;
    tail := Chunks(form, csid, ext, csz, body[csz..]) + rest;
    var h := HeaderIn(form, 3, csid);
    ChunkBytes(form, csid, ext, csz, body, rest);
    FirstPart(m, csz, body[..csz], h + (ext + tail));
    var m1 := m.(body := m.body + body[..csz]);
    NextHeader(form, m1, csid, ext, tail);
    m3 := NextHeaderOf(h + (ext + tail), m1).value;
    OneMoreChunk(bs, m, csz, m1, h + (ext + tail), m3, tail);
  }

  lemma LastPart(m: Msg, csz: nat, body: Data, rest: Data)
    requires m.length == |m.body| + |body| && |body| <= csz
    ensures DecodedBody(body + rest, m, csz) == Ok(m.(body := m.body + body), rest)
  {
    TakeAppend(body, rest);
  }

  lemma FirstPart(m: Msg, csz: nat, part: Data, rest: Data)
    requires m.length > |m.body| + csz && |part| == csz
    ensures BodyPart(part + rest, m, csz) == Ok(m.(body := m.body + part), rest)
  {
    TakeAppend(part, rest);
  }

  function NextHeaderOf(bs: Data, m: Msg): Parse<Msg> {
    var (m2, r2) :- DecodedHeader(bs, m);
    if m2.field == EXTENDED then DecodedEx(r2, m2) else Ok(m2, r2)
  }

  lemma NextHeader(form: Form, m: Msg, csid: int, ext: Data, tail: Data)
    requires 2 <= csid <= 65599 && m.reading && m.csidOrigin == ReadIn(form, csid)
    requires |ext| == if m.field == EXTENDED then 4 else 0
    ensures var h := HeaderIn(form, 3, csid);
      NextHeaderOf(h + (ext + tail), m)
      == Ok(m.(format := 3, csid := ReadIn(form, csid), hdr := m.hdr + |h| + |ext|, splits := m.splits + 1), tail)
  {
    HeaderRoundTrip(form, 3, csid, ext + tail);
    if m.field == EXTENDED {
      TakeAppend(ext, tail);
    } else {
      assert ext + tail == tail;
    }
  }

  lemma OneMoreChunk(bs: Data, m: Msg, csz: nat, m1: Msg, r1: Data, m3: Msg, r3: Data)
    requires BodyPart(bs, m, csz) == Ok(m1, r1) && m1.length > |m1.body|
    requires NextHeaderOf(r1, m1) == Ok(m3, r3)
    ensures DecodedBody(bs, m, csz) == DecodedBody(r3, m3, csz)
  {
  }

  // ---------- Whole messages ----------

  /** A message as its sender means it. */
  datatype OutMsg = OutMsg(csid: nat, ts: nat, typeId: byte, streamId: int, body: Data)

  /** What a sender remembers of its latest message on a chunk stream. */
  datatype Sent = Sent(ts: nat, delta: nat, length: nat, typeId: byte, streamId: int)

  function DeltaOf(m: OutMsg, fmt: nat, prev: Sent): int {
    if fmt == 0 then m.ts else m.ts - prev.ts
  }

  /** When a header type may be used: the fields it leaves out are those of the message before,
      and a message does not start with type 3 after an extended timestamp. */
  predicate MayUse(m: OutMsg, fmt: nat, prev: Sent) {
    && fmt < 4
    && 0 <= DeltaOf(m, fmt, prev) < 0x1_0000_0000
    && |m.body| < 0x100_0000
    && (fmt >= 1 ==> m.streamId == prev.streamId)
    && (fmt >= 2 ==> |m.body| == prev.length && m.typeId == prev.typeId)
    && (fmt == 3 ==> DeltaOf(m, fmt, prev) == prev.delta < EXTENDED)
  }

  function SentOf(m: OutMsg, delta: nat): Sent {
    Sent(m.ts, delta, |m.body|, m.typeId, m.streamId)
  }

  function Ext(delta: nat): Data {
    if delta >= EXTENDED then BE32(delta) else []
  }

  function Fields(m: OutMsg, fmt: nat, delta: nat): Data {
    match fmt
    case 0 => BE24(FieldOf(delta)) + (BE24(|m.body|) + [m.typeId]) + LE32(m.streamId)
    case 1 => BE24(FieldOf(delta)) + (BE24(|m.body|) + [m.typeId])
    case 2 => BE24(FieldOf(delta))
    case _ => []
  }

  function MessageBytes(form: Form, m: OutMsg, fmt: nat, delta: nat, csz: nat): Data
    requires csz > 0
  {
    HeaderIn(form, fmt, m.csid) + (Fields(m, fmt, delta) + (Ext(delta) + Chunks(form, m.csid, Ext(delta), csz, m.body)))
  }

  /** The receiver remembers what the sender does. */
  predicate Matches(info: ChunkInfo, prev: Sent) {
    && info.actual == prev.ts && info.delta == prev.delta && info.length == prev.length
    && info.typeId == prev.typeId && info.streamId == prev.streamId % 0x1_0000_0000
    && (info.field == EXTENDED <==> prev.delta >= EXTENDED)
  }

  // Each header field is read back; a timestamp field that is extended reads as its marker.

  lemma TimestampReceived(t: nat, m: Msg, rest: Data)
    requires t < 0x100_0000
    ensures DecodedTimestamp(BE24(t) + rest, m) == Ok(m.(field := t, hdr := m.hdr + 3), rest)
  {
    TakeAppend(BE24(t), rest);
  }

  lemma LengthAndTypeReceived(n: nat, k: byte, m: Msg, rest: Data)
    requires n < 0x100_0000
    ensures DecodedLengthAndType(BE24(n) + [k] + rest, m) == Ok(m.(length := n, typeId := k, hdr := m.hdr + 4), rest)
  {
    assert BE24(n) + [k] + rest == BE24(n) + ([k] + rest);
    TakeAppend(BE24(n), [k] + rest);
    TakeAppend([k], rest);
  }

  lemma StreamIdReceived(s: int, m: Msg, rest: Data)
    ensures DecodedStreamId(LE32(s) + rest, m) == Ok(m.(streamId := s % 0x1_0000_0000, hdr := m.hdr + 4), rest)
  {
    TakeAppend(LE32(s), rest);
  }

  function FieldOf(delta: nat): nat {
    if delta >= EXTENDED then EXTENDED else delta
  }

  function WithFields(h: Msg, m: OutMsg, fmt: nat, delta: nat): Msg {
    match fmt
    case 0 => h.(field := FieldOf(delta), length := |m.body|, typeId := m.typeId, streamId := m.streamId % 0x1_0000_0000, hdr := h.hdr + 11)
    case 1 => h.(field := FieldOf(delta), length := |m.body|, typeId := m.typeId, hdr := h.hdr + 7)
    case 2 => h.(field := FieldOf(delta), hdr := h.hdr + 3)
    case _ => h
  }

  lemma FieldsReceived(m: OutMsg, fmt: nat, delta: nat, h: Msg, rest: Data)
    requires fmt < 4 && h.format == fmt && !h.reading && |m.body| < 0x100_0000
    ensures DecodedFields(Fields(m, fmt, delta) + rest, h) == Ok(WithFields(h, m, fmt, delta), rest)
  {
    var t := BE24(FieldOf(delta));
    var lk, s := BE24(|m.body|) + [m.typeId], LE32(m.streamId);
    var h1 := h.(field := FieldOf(delta), hdr := h.hdr + 3);
    if fmt == 0 {
      var h2 := h1.(length := |m.body|, typeId := m.typeId, hdr := h1.hdr + 4);
      Assoc4(t, lk, s, rest);
      TimestampReceived(FieldOf(delta), h, lk + (s + rest));
      LengthAndTypeReceived(|m.body|, m.typeId, h1, s + rest);
      StreamIdReceived(m.streamId, h2, rest);
    } else if fmt == 1 {
      assert Fields(m, fmt, delta) + rest == t + (lk + rest);
      TimestampReceived(FieldOf(delta), h, lk + rest);
      LengthAndTypeReceived(|m.body|, m.typeId, h1, rest);
    } else if fmt == 2 {
      TimestampReceived(FieldOf(delta), h, rest);
    } else {
      assert [] + rest == rest;
    }
  }

  function Head(form: Form, m: OutMsg, fmt: nat, delta: nat): Msg
    requires 2 <= m.csid <= 65599
  {
    WithFields(WithBasic(NoMsg, Basic(fmt, ReadIn(form, m.csid), |HeaderIn(form, fmt, m.csid)|)), m, fmt, delta)
  }

  lemma HeaderReceived(form: Form, m: OutMsg, fmt: nat, delta: nat, rest: Data)
    requires 2 <= m.csid <= 65599 && fmt < 4 && |m.body| < 0x100_0000
    ensures DecodedHeader(HeaderIn(form, fmt, m.csid) + (Fields(m, fmt, delta) + rest), NoMsg) == Ok(Head(form, m, fmt, delta), rest)
  {
    HeaderRoundTrip(form, fmt, m.csid, Fields(m, fmt, delta) + rest);
    FieldsReceived(m, fmt, delta, WithBasic(NoMsg, Basic(fmt, ReadIn(form, m.csid), |HeaderIn(form, fmt, m.csid)|)), rest);
  }

  /** The message as put together after its first header. */
  predicate IsStart(form: Form, n: Msg, m: OutMsg, delta: nat)
    requires 2 <= m.csid <= 65599
  {
    && n.actual == m.ts && n.typeId == m.typeId && n.length == |m.body| && n.streamId == m.streamId % 0x1_0000_0000
    && n.csid == n.csidOrigin == ReadIn(form, m.csid)
    && n.body == [] && n.reading
    && (n.field == EXTENDED <==> delta >= EXTENDED)
    && Matches(InfoOf(n), SentOf(m, delta))
  }

  lemma ExtendedCompleted(h: Msg, known: ChunkInfo, delta: nat, rest: Data)
    requires IsExtended(h, known) && !h.reading && delta < 0x1_0000_0000
    ensures Completed(BE32(delta) + rest, h, known)
      == Ok(Inherited(Timed(h.(ex := delta, hdr := h.hdr + 4), known), known).(reading := true), rest)
  {
    TakeAppend(BE32(delta), rest);
    SmallMod(delta, 0x1_0000_0000);
  }

  lemma CompletedStart(form: Form, m: OutMsg, fmt: nat, prev: Sent, known: ChunkInfo, rest: Data)
    requires 2 <= m.csid <= 65599 && MayUse(m, fmt, prev)
    requires fmt > 0 ==> Matches(known, prev)
    requires fmt == 0 ==> known == NoInfo
    ensures var delta := DeltaOf(m, fmt, prev);
      var p := Completed(Ext(delta) + rest, Head(form, m, fmt, delta), known);
      p.Ok? && p.rest == rest && IsStart(form, p.value, m, delta)
  {
    var delta := DeltaOf(m, fmt, prev);
    var h := Head(form, m, fmt, delta);
    if delta >= EXTENDED {
      ExtendedCompleted(h, known, delta, rest);
    } else {
      assert Ext(delta) + rest == rest;
      assert Completed(rest, h, known) == Ok(Inherited(Timed(h, known), known).(reading := true), rest);
    }
  }

  lemma StartReceived(form: Form, m: OutMsg, fmt: nat, prev: Sent, info: InfoTable, rest: Data)
    requires 2 <= m.csid <= 65599 && MayUse(m, fmt, prev)
    requires fmt > 0 ==> ReadIn(form, m.csid) in info && Matches(info[ReadIn(form, m.csid)], prev)
    ensures var delta := DeltaOf(m, fmt, prev);
      var p := Started(HeaderIn(form, fmt, m.csid) + (Fields(m, fmt, delta) + (Ext(delta) + rest)), info);
      p.Ok? && p.rest == rest && IsStart(form, p.value, m, delta)
  {
    var delta := DeltaOf(m, fmt, prev);
    HeaderReceived(form, m, fmt, delta, Ext(delta) + rest);
    var known := PrevOf(Head(form, m, fmt, delta), info);
    CompletedStart(form, m, fmt, prev, known, rest);
  }

  /** What a received message says, in its sender's terms. */
  function Seen(n: Msg): OutMsg {
    OutMsg(n.csidOrigin, n.actual, n.typeId, n.streamId, n.body)
  }

  /** One message, sent with any header that may be used, in chunks of any size: timestamp, type, stream id and
      body come back, the receiver remembers what the sender does, and the bytes behind it are left. */
  lemma {:induction false} MessageReceived(form: Form, m: OutMsg, fmt: nat, prev: Sent, csz: nat, info: InfoTable, rest: Data)
    returns (n: Msg, i: ChunkInfo)
    requires 2 <= m.csid <= 65599 && MayUse(m, fmt, prev) && csz > 0
    requires fmt > 0 ==> ReadIn(form, m.csid) in info && Matches(info[ReadIn(form, m.csid)], prev)
    ensures var delta := DeltaOf(m, fmt, prev);
      var bs := MessageBytes(form, m, fmt, delta, csz) + rest;
      && DecodedMsg(bs, csz, info) == Ok(n, rest) && n.length == |m.body|
      && Seen(n) == m.(csid := ReadIn(form, m.csid), streamId := m.streamId % 0x1_0000_0000)
      && Matches(i, SentOf(m, delta)) && InfoAfter(bs, info) == info[ReadIn(form, m.csid) := i]
  {
    var delta := DeltaOf(m, fmt, prev);
    var body := Chunks(form, m.csid, Ext(delta), csz, m.body);
    var bs := MessageBytes(form, m, fmt, delta, csz) + rest;
    MessageAssoc(form, m, fmt, delta, csz, rest);
    StartReceived(form, m, fmt, prev, info, body + rest);
    var start := Started(bs, info).value;
    BodyReceived(form, start, m.csid, Ext(delta), csz, m.body, rest);
    assert [] + m.body == m.body;
    n, i := DecodedMsg(bs, csz, info).value, InfoOf(start);
  }

  lemma MessageAssoc(form: Form, m: OutMsg, fmt: nat, delta: nat, csz: nat, rest: Data)
    requires csz > 0
    ensures MessageBytes(form, m, fmt, delta, csz) + rest ==
      HeaderIn(form, fmt, m.csid) + (Fields(m, fmt, delta) + (Ext(delta) + (Chunks(form, m.csid, Ext(delta), csz, m.body) + rest)))
  {
  }

  // ---------- Runs of messages ----------

  /** What is sent, under which type of header, and by whom that is written. */
  datatype Outgoing = Outgoing(m: OutMsg, fmt: nat, form: Form)

  type SentTable = map<nat, Sent>

  const NoSent := Sent(0, 0, 0, 0, 0)

  function PrevSent(o: Outgoing, mem: SentTable): Sent {
    if o.m.csid in mem then mem[o.m.csid] else NoSent
  }

  predicate Legal(o: Outgoing, mem: SentTable) {
    && CsidKept(o.m.csid) && 0 <= o.m.streamId < 0x1_0000_0000
    && (o.fmt > 0 ==> o.m.csid in mem)
    && MayUse(o.m, o.fmt, PrevSent(o, mem))
  }

  /** The chunk size after a message: one of type 1 sets it for those that follow. */
  function NextSize(m: OutMsg, csz: nat): nat {
    if m.typeId == 1 && |m.body| >= 4 then FromBE32(m.body[..4]) % 0x8000_0000 else csz
  }

  /** That is what the receiver takes from the message. */
  lemma NextSizeRead(m: OutMsg, csz: nat)
    requires DecodedPayload(m.typeId, m.body).Ok?
    ensures var p := DecodedPayload(m.typeId, m.body).value;
      NextSize(m, csz) == if m.typeId == 1 && p.Size? then p.n else csz
  {
  }

  /** Any mix of chunk streams and header types, each used where the sender may use it, in chunks whose size is never 0. */
  predicate LegalRun(out: seq<Outgoing>, mem: SentTable, csz: nat) {
    csz > 0 && (out == [] || (Legal(out[0], mem) && LegalRun(out[1..], Remember(out[0], mem), NextSize(out[0].m, csz))))
  }

  function Remember(o: Outgoing, mem: SentTable): SentTable {
    var delta := DeltaOf(o.m, o.fmt, PrevSent(o, mem));
    if delta < 0 then mem else mem[o.m.csid := SentOf(o.m, delta)]
  }

  function RunBytes(out: seq<Outgoing>, mem: SentTable, csz: nat): Data
    requires LegalRun(out, mem, csz)
  {
    if out == [] then []
    else MessageBytes(out[0].form, out[0].m, out[0].fmt, DeltaOf(out[0].m, out[0].fmt, PrevSent(out[0], mem)), csz)
         + RunBytes(out[1..], Remember(out[0], mem), NextSize(out[0].m, csz))
  }

  function Messages(out: seq<Outgoing>): seq<OutMsg> {
    if out == [] then [] else [out[0].m] + Messages(out[1..])
  }

  /** The receiver remembers of every chunk stream what the sender does. */
  predicate Knows(info: InfoTable, mem: SentTable) {
    forall c :: c in mem ==> c in info && Matches(info[c], mem[c])
  }

  /** All messages up to the end of `bs`. */
  function DecodedRun(bs: Data, csz: nat, info: InfoTable): (p: Parse<seq<OutMsg>>)
    decreases |bs|
  {
    if bs == [] then Ok([], [])
    else
      var (m, r) :- DecodedMsg(bs, csz, info);
      Prepended([Seen(m)], DecodedRun(r, NextSize(Seen(m), csz), InfoAfter(bs, info)))
  }

  lemma RunStep(o: Outgoing, mem: SentTable, csz: nat, info: InfoTable, tail: Data) returns (after: InfoTable)
    requires csz > 0 && Legal(o, mem) && Knows(info, mem)
    ensures var bs := MessageBytes(o.form, o.m, o.fmt, DeltaOf(o.m, o.fmt, PrevSent(o, mem)), csz) + tail;
      DecodedRun(bs, csz, info) == Prepended([o.m], DecodedRun(tail, NextSize(o.m, csz), after))
    ensures Knows(after, Remember(o, mem))
  {
    var prev := PrevSent(o, mem);
    var n, i := MessageReceived(o.form, o.m, o.fmt, prev, csz, info, tail);
    after := info[o.m.csid := i];
    Unchanged(o.form, o.m);
    Unrolled(MessageBytes(o.form, o.m, o.fmt, DeltaOf(o.m, o.fmt, prev), csz) + tail, csz, info, n, tail, after);
  }

  lemma Unchanged(form: Form, m: OutMsg)
    requires CsidKept(m.csid) && 0 <= m.streamId < 0x1_0000_0000
    ensures m.(csid := ReadIn(form, m.csid), streamId := m.streamId % 0x1_0000_0000) == m
  {
    assert m.streamId % 0x1_0000_0000 == m.streamId;
    assert ReadIn(form, m.csid) == m.csid;
  }

  lemma Unrolled(bs: Data, csz: nat, info: InfoTable, n: Msg, tail: Data, after: InfoTable)
    requires DecodedMsg(bs, csz, info) == Ok(n, tail) && InfoAfter(bs, info) == after
    ensures DecodedRun(bs, csz, info) == Prepended([Seen(n)], DecodedRun(tail, NextSize(Seen(n), csz), after))
  {
    assert bs != [];
  }

  /** Header compression loses nothing: over a whole run, on any mix of chunk streams interleaved at message
      boundaries, and with the chunk size changing on the way, every message comes back with its absolute timestamp, type,
      stream id and body. */
  lemma {:induction false} RunReceived(out: seq<Outgoing>, mem: SentTable, csz: nat, info: InfoTable)
    requires LegalRun(out, mem, csz) && Knows(info, mem)
    ensures DecodedRun(RunBytes(out, mem, csz), csz, info) == Ok(Messages(out), [])
    decreases |out|
  {
    if out != [] {
      var next := NextSize(out[0].m, csz);
      var after := RunStep(out[0], mem, csz, info, RunBytes(out[1..], Remember(out[0], mem), next));
      RunReceived(out[1..], Remember(out[0], mem), next, after);
    }
  }

  /** Where the code departs from section 5.3.1.3 of RTMP 1.0: a message that starts with a type 3 header after an
      extended timestamp gets its delta for an absolute timestamp, which is right only at time zero. */
  lemma Type3AfterExtended(form: Form, m: OutMsg, prev: Sent, info: InfoTable, rest: Data)
    requires 2 <= m.csid <= 65599 && ReadIn(form, m.csid) in info && Matches(info[ReadIn(form, m.csid)], prev)
    requires EXTENDED <= prev.delta < 0x1_0000_0000 && m.ts == prev.ts + prev.delta && |m.body| < 0x100_0000
    ensures var p := Started(HeaderIn(form, 3, m.csid) + (Ext(prev.delta) + rest), info);
      p.Ok? && p.value.actual == prev.delta && (p.value.actual == m.ts <==> prev.ts == 0)
  {
    HeaderReceived(form, m, 3, prev.delta, Ext(prev.delta) + rest);
    assert Fields(m, 3, prev.delta) + (Ext(prev.delta) + rest) == Ext(prev.delta) + rest;
    ExtendedCompleted(Head(form, m, 3, prev.delta), info[ReadIn(form, m.csid)], prev.delta, rest);
  }

  // ---------- Commands ----------

  /** The bytes of `amf0Command`. */
  function CommandBytes(csz: nat, csid: nat, streamId: int, body: Data): Data
    requires csz > 0
  {
    MessageBytes(Own, OutMsg(csid, 0, 20, streamId, body), 0, 0, csz)
  }

  /** End to end: whatever the chunk size and the number of continuation chunks, a command of AMF 0 values is received
      as its normalised values, and exactly the bytes that follow it are left.
      An id that does not survive its header does no harm here, as all headers of the message carry the same one. */
  lemma CommandReceived(csz: nat, csid: nat, streamId: int, vs: seq<Value>, ecma: bool, body: Data, info: InfoTable, rest: Data)
    requires csz > 0 && 2 <= csid <= 65599 && |body| < 0x100_0000
    requires Amf0.CleanAll(vs) && Amf0.IsEncodingAll(vs, ecma, body)
    ensures var p := DecodedOne(CommandBytes(csz, csid, streamId, body) + rest, csz, info);
      p.Ok? && p.rest == rest && p.value.ts == 0 && p.value.typeId == 20 && p.value.payload == Values(Amf0.NormAll(vs))
  {
    var _, _ := MessageReceived(Own, OutMsg(csid, 0, 20, streamId, body), 0, NoSent, csz, info, rest);
    Amf0.AllRoundTrip(vs, ecma, body);
    CommandFinished(DecodedMsg(CommandBytes(csz, csid, streamId, body) + rest, csz, info), vs);
  }

  lemma CommandFinished(p: Parse<Msg>, vs: seq<Value>)
    requires p.Ok? && p.value.typeId == 20 && Amf0.DecodedAll(p.value.body) == Ok(Amf0.NormAll(vs), [])
    ensures Finished(p) == Ok(Received(p.value.actual, 20, Values(Amf0.NormAll(vs)), p.value.hdr + p.value.length), p.rest)
  {
  }

  // ---------- Control messages ----------

  /** A short message of the protocol itself goes out on chunk stream 2 in one chunk. */
  function ControlBytes(typeId: byte, body: Data): Data {
    BasicHeader(0, 2) + (BE24(0) + (BE24(|body|) + [typeId]) + LE32(0)) + body
  }

  function AckBytes(total: int): Data {
    ControlBytes(3, BE32(total))
  }

  function WindowAckBytes(size: int): Data {
    ControlBytes(5, BE32(size))
  }

  function PeerBandwidthBytes(window: int, limit: int): Data {
    ControlBytes(6, BE32(window) + [limit % 256])
  }

  function PongBytes(timestamp: int): Data {
    ControlBytes(4, BE16(7) + BE32(timestamp))
  }

  function BufferLengthBytes(streamId: int, length: int): Data {
    ControlBytes(4, BE16(3) + BE32(streamId) + BE32(length))
  }

  lemma ControlShape(typeId: byte, body: Data, csz: nat)
    requires |body| <= csz && csz > 0
    ensures ControlBytes(typeId, body) == MessageBytes(Own, OutMsg(2, 0, typeId, 0, body), 0, 0, csz)
  {
  }

  lemma ControlReceived(typeId: byte, body: Data, csz: nat, info: InfoTable, rest: Data) returns (n: Msg)
    requires |body| <= csz && csz > 0 && |body| < 0x100_0000
    ensures DecodedOne(ControlBytes(typeId, body) + rest, csz, info) == Finished(Ok(n, rest))
    ensures n.typeId == typeId && n.body == body && n.actual == 0
  {
    ControlShape(typeId, body, csz);
    var i;
    n, i := MessageReceived(Own, OutMsg(2, 0, typeId, 0, body), 0, NoSent, csz, info, rest);
  }

  lemma ControlFinished(n: Msg, payload: Payload, left: Data, rest: Data)
    requires DecodedPayload(n.typeId, n.body) == Ok(payload, left)
    ensures Finished(Ok(n, rest)) == Ok(Received(n.actual, n.typeId, payload, n.hdr + n.length), rest)
  {
  }

  /** A message is received as this payload, and what follows it is left. */
  predicate IsControlFor(bs: Data, rest: Data, csz: nat, info: InfoTable, typeId: byte, payload: Payload) {
    var p := DecodedOne(bs + rest, csz, info);
    p.Ok? && p.rest == rest && p.value.typeId == typeId && p.value.payload == payload
  }

  lemma ControlPayload(typeId: byte, body: Data, payload: Payload, left: Data, csz: nat, info: InfoTable, rest: Data)
    requires |body| <= csz && csz > 0 && |body| < 0x100_0000
    requires DecodedPayload(typeId, body) == Ok(payload, left)
    ensures IsControlFor(ControlBytes(typeId, body), rest, csz, info, typeId, payload)
  {
    var n := ControlReceived(typeId, body, csz, info, rest);
    ControlFinished(n, payload, left, rest);
  }

  lemma NumberRead(n: int, left: Data)
    ensures Take(BE32(n) + left, 4) == Ok(BE32(n), left) && FromBE32(BE32(n)) == n % 0x1_0000_0000
  {
    TakeAppend(BE32(n), left);
  }

  lemma ControlNumbers(event: int, a: int, b: int)
    requires 0 <= event < 0x1_0000
    ensures event == 3 ==> DecodedControl(BE16(event) + BE32(a) + BE32(b)) == Ok([3, a % 0x1_0000_0000, b % 0x1_0000_0000], [])
    ensures event in {0, 1, 2, 4, 6, 7} ==> DecodedControl(BE16(event) + BE32(a)) == Ok([event, a % 0x1_0000_0000], [])
  {
    assert BE16(event) + BE32(a) + BE32(b) == BE16(event) + (BE32(a) + (BE32(b) + []));
    assert BE16(event) + BE32(a) == BE16(event) + (BE32(a) + []);
    TakeAppend(BE16(event), BE32(a) + (BE32(b) + []));
    TakeAppend(BE16(event), BE32(a) + []);
    NumberRead(a, BE32(b) + []);
    NumberRead(a, []);
    NumberRead(b, []);
    SmallMod(event, 0x1_0000);
  }

  lemma PayloadsRead(a: int, b: int)
    ensures DecodedPayload(5, BE32(a)) == Ok(Size(a % 0x1_0000_0000), [])
    ensures DecodedPayload(6, BE32(a) + [b % 256]) == Ok(Bandwidth(a % 0x1_0000_0000, b % 256), [])
    ensures DecodedPayload(4, BE16(7) + BE32(a)) == Ok(Control([7, a % 0x1_0000_0000]), [])
    ensures DecodedPayload(4, BE16(3) + BE32(a) + BE32(b)) == Ok(Control([3, a % 0x1_0000_0000, b % 0x1_0000_0000]), [])
  {
    ControlNumbers(7, a, 0);
    ControlNumbers(3, a, b);
    NumberRead(a, []);
    assert BE32(a) + [] == BE32(a);
    NumberRead(a, [b % 256]);
  }

  // What the sender says about windows, buffers and pings, the receiver reads, up to 32 bits.

  lemma WindowAckReceived(csz: nat, info: InfoTable, rest: Data, size: int)
    requires csz >= 4
    ensures IsControlFor(WindowAckBytes(size), rest, csz, info, 5, Size(size % 0x1_0000_0000))
  {
    PayloadsRead(size, 0);
    ControlPayload(5, BE32(size), Size(size % 0x1_0000_0000), [], csz, info, rest);
  }

  lemma PeerBandwidthReceived(csz: nat, info: InfoTable, rest: Data, window: int, limit: int)
    requires csz >= 5
    ensures IsControlFor(PeerBandwidthBytes(window, limit), rest, csz, info, 6, Bandwidth(window % 0x1_0000_0000, limit % 256))
  {
    PayloadsRead(window, limit);
    ControlPayload(6, BE32(window) + [limit % 256], Bandwidth(window % 0x1_0000_0000, limit % 256), [], csz, info, rest);
  }

  lemma PongReceived(csz: nat, info: InfoTable, rest: Data, timestamp: int)
    requires csz >= 6
    ensures IsControlFor(PongBytes(timestamp), rest, csz, info, 4, Control([7, timestamp % 0x1_0000_0000]))
  {
    PayloadsRead(timestamp, 0);
    ControlPayload(4, BE16(7) + BE32(timestamp), Control([7, timestamp % 0x1_0000_0000]), [], csz, info, rest);
  }

  lemma BufferLengthReceived(csz: nat, info: InfoTable, rest: Data, streamId: int, length: int)
    requires csz >= 10
    ensures IsControlFor(BufferLengthBytes(streamId, length), rest, csz, info, 4,
                         Control([3, streamId % 0x1_0000_0000, length % 0x1_0000_0000]))
  {
    PayloadsRead(streamId, length);
    ControlPayload(4, BE16(3) + BE32(streamId) + BE32(length), Control([3, streamId % 0x1_0000_0000, length % 0x1_0000_0000]), [], csz, info, rest);
  }

  lemma AckUnknown(n: Msg, rest: Data)
    requires n.typeId == 3
    ensures Finished(Ok(n, rest)) == Err(Malformed)
  {
  }

  /** The receiver does not know acknowledgements: one that is sent back to it is malformed. */
  lemma AckNotReceived(csz: nat, info: InfoTable, rest: Data, total: int)
    requires csz >= 4
    ensures DecodedOne(ControlBytes(3, BE32(total)) + rest, csz, info) == Err(Malformed)
  {
    var n := ControlReceived(3, BE32(total), csz, info, rest);
    AckUnknown(n, rest);
  }
}
