/** The chunk stream as it runs: a message object is filled while a reader advances, and the table of
    chunk streams is updated in place. */
module ChunkCodec {
  import opened Bytes
  import opened AmfValues
  import opened Chunk
  import opened ChunkStream
  import Amf0
  import Amf0Codec

  /** The map of chunk streams, shared by all calls of one connection. */
  class ChunkTable {
    var info: InfoTable

    constructor ()
      ensures info == map[]
    {
      info := map[];
    }
  }

  method ReadBasic(rdr: Reader) returns (r: Result<Basic>)
    requires rdr.Valid()
    modifies rdr
    ensures rdr.Did(DecodedBasic(old(rdr.Rest())), r)
  {
    var b0 := rdr.ReadFull(1);
    if b0.Failed? {
      return Failed(b0.kind);
    }
    var fmt, id := b0.value[0] / 64, b0.value[0] % 64;
    if id == 0 {
      var b1 := rdr.ReadFull(1);
      return if b1.Done? then Done(Basic(fmt, b1.value[0] as int + 64, 2)) else Failed(b1.kind);
    } else if id == 1 {
      var b1 := rdr.ReadFull(2);
      return if b1.Done? then Done(Basic(fmt, JoinCsid(b1.value[1], b1.value[0]), 3)) else Failed(b1.kind);
    }
    return Done(Basic(fmt, id, 1));
  }

  /** `rtmpMsg`, with the readers that fill its fields. */
  class Message {
    var format: nat
    var formatOrigin: nat
    var csid: nat
    var csidOrigin: nat
    var field: nat
    var delta: nat
    var ex: nat
    var actual: nat
    var length: nat
    var typeId: byte
    var streamId: nat
    var body: Data
    var reading: bool
    var hdr: nat
    var splits: nat

    constructor ()
      ensures Value() == NoMsg
    {
      format, formatOrigin, csid, csidOrigin := 0, 0, 0, 0;
      field, delta, ex, actual := 0, 0, 0, 0;
      length, typeId, streamId, body := 0, 0, 0, [];
      reading, hdr, splits := false, 0, 0;
    }

    ghost function Value(): Msg
      reads this
    {
      Msg(format, formatOrigin, csid, csidOrigin, field, delta, ex, actual, length, typeId, streamId, body, reading, hdr, splits)
    }

    /** The message and the reader are where the parse `p` leads, and `r` reports its error if it has one. */
    ghost predicate Became(rdr: Reader, p: Parse<Msg>, r: Result<()>)
      reads this, rdr
    {
      && rdr.Valid()
      && match p
         case Ok(m, rest) => r == Done(()) && Value() == m && rdr.Rest() == rest
         case Err(k) => r == Failed(k)
         case Fatal => r == Exit
    }

    method DecodeFmtCsId(rdr: Reader) returns (r: Result<()>)
      requires rdr.Valid()
      modifies this, rdr
      ensures rdr.Valid()
      ensures match DecodedBasic(old(rdr.Rest()))
        case Ok(b, rest) => r == Done(()) && Value() == WithBasic(old(Value()), b) && rdr.Rest() == rest
        case Err(k) => r == Failed(k)
        case Fatal => r == Exit
    {
      var b := ReadBasic(rdr);
      if !b.Done? {
        return if b.Failed? then Failed(b.kind) else Exit;
      }
      hdr := hdr + b.value.size;
      format, csid := b.value.format, b.value.csid;
      if !reading {
        formatOrigin, csidOrigin := b.value.format, b.value.csid;
      }
      return Done(());
    }

    method DecodeTimestamp(rdr: Reader) returns (r: Result<()>)
      requires rdr.Valid()
      modifies this, rdr
      ensures Became(rdr, DecodedTimestamp(old(rdr.Rest()), old(Value())), r)
    {
      hdr := hdr + 3;
      var t := rdr.ReadFull(3);
      if t.Failed? {
        return Failed(t.kind);
      }
      field := FromBE24(t.value);
      return Done(());
    }

    method DecodeTimestampEx(rdr: Reader) returns (r: Result<()>)
      requires rdr.Valid()
      modifies this, rdr
      ensures Became(rdr, DecodedEx(old(rdr.Rest()), old(Value())), r)
    {
      hdr := hdr + 4;
      var t := rdr.ReadFull(4);
      if t.Failed? {
        return Failed(t.kind);
      }
      if !reading {
        ex := FromBE32(t.value);
      }
      return Done(());
    }

    method DecodeLengthAndType(rdr: Reader) returns (r: Result<()>)
      requires rdr.Valid()
      modifies this, rdr
      ensures Became(rdr, DecodedLengthAndType(old(rdr.Rest()), old(Value())), r)
    {
      hdr := hdr + 3;
      var l := rdr.ReadFull(3);
      if l.Failed? {
        return Failed(l.kind);
      }
      length := FromBE24(l.value);
      hdr := hdr + 1;
      var t := rdr.ReadFull(1);
      if t.Failed? {
        return Failed(t.kind);
      }
      typeId := t.value[0];
      return Done(());
    }

    method DecodeStreamId(rdr: Reader) returns (r: Result<()>)
      requires rdr.Valid()
      modifies this, rdr
      ensures Became(rdr, DecodedStreamId(old(rdr.Rest()), old(Value())), r)
    {
      hdr := hdr + 4;
      var s := rdr.ReadFull(4);
      if s.Failed? {
        return Failed(s.kind);
      }
      streamId := FromLE32(s.value);
      return Done(());
    }

    method DecodeFields(rdr: Reader) returns (r: Result<()>)
      requires rdr.Valid() && format < 4
      modifies this, rdr
      ensures Became(rdr, DecodedFields(old(rdr.Rest()), old(Value())), r)
    {
      r := Done(());
      match format
      case 0 =>
        r := DecodeTimestamp(rdr);
        if r.Done? {
          r := DecodeLengthAndType(rdr);
        }
        if r.Done? {
          r := DecodeStreamId(rdr);
        }
      case 1 =>
        r := DecodeTimestamp(rdr);
        if r.Done? {
          r := DecodeLengthAndType(rdr);
        }
      case 2 =>
        r := DecodeTimestamp(rdr);
      case _ =>
        if reading {
          if csid != csidOrigin {
            return Failed(Malformed);
          }
          splits := splits + 1;
        }
    }

    method DecodeHeader(rdr: Reader) returns (r: Result<()>)
      requires rdr.Valid()
      modifies this, rdr
      ensures Became(rdr, DecodedHeader(old(rdr.Rest()), old(Value())), r)
    {
      r := DecodeFmtCsId(rdr);
      if r.Done? {
        r := DecodeFields(rdr);
      }
    }

    method ReadChunkBody(rdr: Reader, csz: nat) returns (r: Result<()>)
      requires rdr.Valid()
      modifies this, rdr
      ensures Became(rdr, BodyPart(old(rdr.Rest()), old(Value()), csz), r)
    {
      var rem := length - |body|;
      if rem < 0 {
        return Done(());
      }
      var part := rdr.ReadFull(if rem > csz then csz else rem);
      if part.Failed? {
        return Failed(part.kind);
      }
      body := body + part.value;
      return Done(());
    }

    /** The absolute timestamp, from the extended field if there is one. */
    method Time(prev: ChunkInfo)
      modifies this
      ensures Value() == Timed(old(Value()), prev)
    {
      if field == EXTENDED || (formatOrigin == 3 && prev.field == EXTENDED) {
        match formatOrigin {
          case 0 => actual, delta := ex, ex;
          case 3 => actual, delta, field := ex, ex, EXTENDED;
          case _ => actual, delta := prev.actual + ex, ex;
        }
      } else {
        match formatOrigin {
          case 0 => actual, delta := field, field;
          case 3 => actual, delta := prev.actual + prev.delta, prev.delta;
          case _ => actual, delta := prev.actual + field, field;
        }
      }
    }

    /** The fields the header leaves out. */
    method Inherit(prev: ChunkInfo)
      modifies this
      ensures Value() == Inherited(old(Value()), prev)
    {
      match formatOrigin {
        case 0 =>
        case 1 => streamId := prev.streamId;
        case _ => length, typeId, streamId := prev.length, prev.typeId, prev.streamId;
      }
    }

    method Complete(rdr: Reader, prev: ChunkInfo) returns (r: Result<()>)
      requires rdr.Valid()
      modifies this, rdr
      ensures Became(rdr, Completed(old(rdr.Rest()), old(Value()), prev), r)
    {
      if field == EXTENDED || (formatOrigin == 3 && prev.field == EXTENDED) {
        r := DecodeTimestampEx(rdr);
        if !r.Done? {
          return;
        }
      }
      Time(prev);
      Inherit(prev);
      reading := true;
      return Done(());
    }

    method Start(rdr: Reader, table: ChunkTable) returns (r: Result<()>)
      requires rdr.Valid() && Value() == NoMsg
      modifies this, rdr, table
      ensures Became(rdr, Started(old(rdr.Rest()), old(table.info)), r)
      ensures table.info == InfoAfter(old(rdr.Rest()), old(table.info))
    {
      r := DecodeHeader(rdr);
      if !r.Done? {
        return;
      }
      var prev := NoInfo;
      if formatOrigin != 0 {
        if csidOrigin !in table.info {
          return Failed(Malformed);
        }
        prev := table.info[csidOrigin];
      }
      r := Complete(rdr, prev);
      if r.Done? {
        table.info := table.info[csid := ChunkInfo(field, delta, actual, length, typeId, streamId)];
      }
    }

    /** The rest of the body, chunk by chunk. */
    method ReadBody(rdr: Reader, csz: nat) returns (r: Result<()>)
      requires rdr.Valid()
      modifies this, rdr
      ensures Became(rdr, DecodedBody(old(rdr.Rest()), old(Value()), csz), r)
    {
      ghost var goal := DecodedBody(rdr.Rest(), Value(), csz);
      while true
        invariant rdr.Valid() && goal == DecodedBody(rdr.Rest(), Value(), csz)
        decreases |rdr.Rest()|
      {
        ghost var before := rdr.Rest();
        r := ReadChunkBody(rdr, csz);
        if !r.Done? {
          return;
        }
        if length <= |body| {
          return;
        }
        r := DecodeHeader(rdr);
        if !r.Done? {
          return;
        }
        if field == EXTENDED {
          r := DecodeTimestampEx(rdr);
          if !r.Done? {
            return;
          }
        }
      }
    }
  }

  // ---------- Message bodies ----------

  method DecodeSubHead(rbuff: Reader) returns (r: Result<SubHead>)
    requires rbuff.Valid()
    modifies rbuff
    ensures rbuff.Did(DecodedSubHead(old(rbuff.Rest())), r)
  {
    var t := rbuff.ReadFull(1);
    if t.Failed? { return Failed(t.kind); }
    var plen := rbuff.ReadFull(3);
    if plen.Failed? { return Failed(plen.kind); }
    var ts0 := rbuff.ReadFull(3);
    if ts0.Failed? { return Failed(ts0.kind); }
    var ts1 := rbuff.ReadFull(1);
    if ts1.Failed? { return Failed(ts1.kind); }
    var sid := rbuff.ReadFull(3);
    if sid.Failed? { return Failed(sid.kind); }
    return Done(SubHead(t.value[0], FromBE24(plen.value), 0x100_0000 * (ts1.value[0] as int) + FromBE24(ts0.value)));
  }

  method DecodeSub(rbuff: Reader) returns (r: Result<SubMsg>)
    requires rbuff.Valid()
    modifies rbuff
    ensures rbuff.Did(DecodedSub(old(rbuff.Rest())), r)
  {
    var h := DecodeSubHead(rbuff);
    if h.Failed? { return Failed(h.kind); }
    var data := rbuff.ReadFull(h.value.length);
    if data.Failed? { return Failed(data.kind); }
    var back := rbuff.ReadFull(4);
    if back.Failed? { return Failed(back.kind); }
    return Done(SubMsg(h.value.typeId, h.value.ts, data.value));
  }

  method DecodeAggregate(rbuff: Reader) returns (r: Result<seq<SubMsg>>)
    requires rbuff.Valid()
    modifies rbuff
    ensures match DecodedAggregate(old(rbuff.Rest()))
      case Ok(ms, _) => r == Done(ms)
      case Err(k) => r == Failed(k)
      case Fatal => r == Exit
  {
    var res: seq<SubMsg> := [];
    ghost var before := rbuff.Rest();
    PrependedStep([], [], DecodedAggregate(before));
    while rbuff.Len() > 0
      invariant rbuff.Valid()
      invariant DecodedAggregate(before) == Prepended(res, DecodedAggregate(rbuff.Rest()))
      decreases |rbuff.Rest()|
    {
      ghost var soFar := res;
      var m := DecodeSub(rbuff);
      if !m.Done? {
        return if m.Failed? then Failed(m.kind) else Exit;
      }
      res := res + [m.value];
      PrependedStep(soFar, [m.value], DecodedAggregate(rbuff.Rest()));
    }
    assert rbuff.Rest() == [] && res + [] == res;
    return Done(res);
  }

  method DecodeUserControl(rbuff: Reader) returns (r: Result<seq<nat>>)
    requires rbuff.Valid()
    modifies rbuff
    ensures rbuff.Did(DecodedControl(old(rbuff.Rest())), r)
  {
    var e := rbuff.ReadFull(2);
    if e.Failed? { return Failed(e.kind); }
    var evt := FromBE16(e.value);
    if evt == 31 || evt == 32 {
      return Done([evt]);
    } else if evt in {0, 1, 2, 4, 6, 7} {
      var num := rbuff.ReadFull(4);
      return if num.Done? then Done([evt, FromBE32(num.value)]) else Failed(num.kind);
    } else if evt == 3 {
      var sid := rbuff.ReadFull(4);
      if sid.Failed? { return Failed(sid.kind); }
      var bsz := rbuff.ReadFull(4);
      return if bsz.Done? then Done([evt, FromBE32(sid.value), FromBE32(bsz.value)]) else Failed(bsz.kind);
    }
    return Failed(Malformed);
  }

  method DecodeSetPeerBandwidth(rbuff: Reader) returns (r: Result<Payload>)
    requires rbuff.Valid()
    modifies rbuff
    ensures rbuff.Did(DecodedPayload(6, old(rbuff.Rest())), r)
  {
    var wsz := rbuff.ReadFull(4);
    if wsz.Failed? { return Failed(wsz.kind); }
    var lim := rbuff.ReadFull(1);
    return if lim.Done? then Done(Bandwidth(FromBE32(wsz.value), lim.value[0])) else Failed(lim.kind);
  }

  method DecodeNumber(rbuff: Reader) returns (r: Result<nat>)
    requires rbuff.Valid()
    modifies rbuff
    ensures match Take(old(rbuff.Rest()), 4) case Ok(n, _) => r == Done(FromBE32(n)) case _ => r == Failed(ShortRead)
  {
    var n := rbuff.ReadFull(4);
    return if n.Done? then Done(FromBE32(n.value)) else Failed(n.kind);
  }

  /** The switch at the end of `decodeOne`. */
  method DecodePayload(typeId: byte, body: Data) returns (r: Result<Payload>)
    ensures match DecodedPayload(typeId, body)
      case Ok(p, _) => r == Done(p)
      case Err(k) => r == Failed(k)
      case Fatal => r == Exit
  {
    var rbuff := new Reader(body);
    assert rbuff.Rest() == body;
    match typeId
    case 22 =>
      var ms := DecodeAggregate(rbuff);
      return match ms case Done(l) => Done(Parts(l)) case Failed(k) => Failed(k) case Exit => Exit;
    case 8 => return Done(Media(body));
    case 9 => return Done(Media(body));
    case 5 =>
      var n := DecodeNumber(rbuff);
      return if n.Done? then Done(Size(n.value)) else Failed(n.kind);
    case 6 =>
      r := DecodeSetPeerBandwidth(rbuff);
    case 20 =>
      var vs := Amf0Codec.DecodeAmf0(body, false);
      return match vs case Done(l) => Done(Values(l)) case Failed(k) => Failed(k) case Exit => Exit;
    case 17 =>
      var vs := Amf0Codec.DecodeAmf0(body, true);
      return match vs case Done(l) => Done(Values(l)) case Failed(k) => Failed(k) case Exit => Exit;
    case 18 =>
      var vs := Amf0Codec.DecodeAmf0(body, false);
      return match vs case Done(l) => Done(Values(l)) case Failed(k) => Failed(k) case Exit => Exit;
    case 1 =>
      var n := DecodeNumber(rbuff);
      return if n.Done? then Done(Size(n.value % 0x8000_0000)) else Failed(n.kind);
    case 4 =>
      var ns := DecodeUserControl(rbuff);
      return match ns case Done(l) => Done(Control(l)) case Failed(k) => Failed(k) case Exit => Exit;
    case _ => return Failed(Malformed);
  }

  method ReadMessage(rdr: Reader, csz: nat, table: ChunkTable, msg: Message) returns (r: Result<()>)
    requires rdr.Valid() && msg.Value() == NoMsg
    modifies rdr, table, msg
    ensures msg.Became(rdr, DecodedMsg(old(rdr.Rest()), csz, old(table.info)), r)
    ensures table.info == InfoAfter(old(rdr.Rest()), old(table.info))
  {
    r := msg.Start(rdr, table);
    if r.Done? {
      r := msg.ReadBody(rdr, csz);
    }
  }

  method Finish(msg: Message, ghost p: Parse<Msg>, rdr: Reader) returns (r: Result<Received>)
    requires rdr.Valid() && p == Ok(msg.Value(), rdr.Rest())
    ensures rdr.Did(Finished(p), r)
  {
    var rsz := msg.hdr + msg.length;
    var payload := DecodePayload(msg.typeId, msg.body);
    return match payload
      case Done(v) => Done(Received(msg.actual, msg.typeId, v, rsz))
      case Failed(k) => Failed(k)
      case Exit => Exit;
  }

  /** `decodeOne`: one message from the connection. */
  method DecodeOne(rdr: Reader, csz: nat, table: ChunkTable) returns (r: Result<Received>)
    requires rdr.Valid()
    modifies rdr, table
    ensures rdr.Did(DecodedOne(old(rdr.Rest()), csz, old(table.info)), r)
    ensures table.info == InfoAfter(old(rdr.Rest()), old(table.info))
  {
    ghost var p := DecodedMsg(rdr.Rest(), csz, table.info);
    var msg := new Message();
    var done := ReadMessage(rdr, csz, table, msg);
    if !done.Done? {
      return if done.Failed? then Failed(done.kind) else Exit;
    }
    r := Finish(msg, p, rdr);
  }

  // ---------- Sending ----------

  method Type0(buff: Buffer, csid: nat, typeId: byte, streamId: int, length: nat)
    modifies buff
    ensures buff.data == old(buff.data) + (BasicHeader(0, csid) + (BE24(0) + (BE24(length) + [typeId]) + LE32(streamId)))
  {
    ghost var before := buff.data;
    buff.Write(BasicHeader(0, csid));
    buff.Write(BE24(0));
    buff.Write(BE24(length));
    buff.Write([typeId]);
    buff.Write(LE32(streamId));
    FlatHeader(before, BasicHeader(0, csid), BE24(0), BE24(length), [typeId], LE32(streamId));
  }

  lemma FlatHeader(b: Data, h: Data, t: Data, l: Data, k: Data, s: Data)
    ensures b + h + t + l + k + s == b + (h + (t + (l + k) + s))
  {
  }

  /** What the encoders of all control messages do. */
  method EncodeControl(typeId: byte, body: Data) returns (wire: Data)
    ensures wire == ControlBytes(typeId, body)
  {
    var buff := new Buffer();
    Type0(buff, 2, typeId, 0, |body|);
    buff.Write(body);
    assert buff.data == [] + ControlBytes(typeId, body);
    wire := buff.data;
  }

  method EncodeAcknowledgement(total: int) returns (wire: Data)
    ensures wire == AckBytes(total)
  {
    wire := EncodeControl(3, BE32(total));
  }

  method EncodeWindowAckSize(size: int) returns (wire: Data)
    ensures wire == WindowAckBytes(size)
  {
    wire := EncodeControl(5, BE32(size));
  }

  method EncodeSetPeerBandwidth(window: int, limit: int) returns (wire: Data)
    ensures wire == PeerBandwidthBytes(window, limit)
  {
    wire := EncodeControl(6, BE32(window) + [limit % 256]);
  }

  method EncodePingResponse(timestamp: int) returns (wire: Data)
    ensures wire == PongBytes(timestamp)
  {
    wire := EncodeControl(4, BE16(7) + BE32(timestamp));
  }

  method EncodeSetBufferLength(streamId: int, length: int) returns (wire: Data)
    ensures wire == BufferLengthBytes(streamId, length)
  {
    wire := EncodeControl(4, BE16(3) + BE32(streamId) + BE32(length));
  }

  /** `amf0Command`: the first chunk behind a header of type 0, the others behind headers of type 3. */
  method Amf0Command(csz: nat, csid: nat, streamId: int, body: Data) returns (wire: Data)
    requires csz > 0
    ensures wire == CommandBytes(csz, csid, streamId, body)
  {
    var wbuff := new Buffer();
    Type0(wbuff, csid, 20, streamId, |body|);
    ghost var head := wbuff.data;
    var n := if csz < |body| then csz else |body|;
    wbuff.Write(body[..n]);
    var rest := body[n..];
    ContinuationStart(head, csid, csz, body, n);
    while |rest| > 0
      invariant wbuff.data + Continuation(csid, csz, rest) == head + Chunks(Own, csid, [], csz, body)
      decreases |rest|
    {
      ghost var soFar := wbuff.data;
      ghost var left := rest;
      wbuff.Write(BasicHeader(3, csid));
      n := if csz < |rest| then csz else |rest|;
      wbuff.Write(rest[..n]);
      rest := rest[n..];
      ContinuationStep(soFar, csid, csz, left, n);
    }
    assert wbuff.data + [] == wbuff.data;
    CommandShape(csz, csid, streamId, body, head);
    wire := wbuff.data;
  }

  lemma CommandShape(csz: nat, csid: nat, streamId: int, body: Data, head: Data)
    requires csz > 0
    requires head == [] + (BasicHeader(0, csid) + (BE24(0) + (BE24(|body|) + [20]) + LE32(streamId)))
    ensures head + Chunks(Own, csid, [], csz, body) == CommandBytes(csz, csid, streamId, body)
  {
    var m := OutMsg(csid, 0, 20, streamId, body);
    assert head == BasicHeader(0, csid) + Fields(m, 0, 0);
  }

  lemma Rejoin(a: Data, b: Data, c: Data, d: Data)
    ensures a + b + (c + d) == a + (b + (c + [] + d))
  {
  }

  lemma ContinuationStart(head: Data, csid: nat, csz: nat, body: Data, n: nat)
    requires csz > 0 && n == if csz < |body| then csz else |body|
    ensures head + body[..n] + Continuation(csid, csz, body[n..]) == head + Chunks(Own, csid, [], csz, body)
  {
    if csz < |body| {
      Rejoin(head, body[..csz], BasicHeader(3, csid), Chunks(Own, csid, [], csz, body[csz..]));
    } else {
      assert head + body[..n] + [] == head + body;
    }
  }

  /** What is still to be written once `rest` of the body is left. */
  ghost function Continuation(csid: nat, csz: nat, rest: Data): Data
    requires csz > 0
  {
    if rest == [] then [] else BasicHeader(3, csid) + Chunks(Own, csid, [], csz, rest)
  }

  lemma ContinuationStep(soFar: Data, csid: nat, csz: nat, rest: Data, n: nat)
    requires csz > 0 && rest != [] && n == if csz < |rest| then csz else |rest|
    ensures soFar + Continuation(csid, csz, rest) == soFar + BasicHeader(3, csid) + rest[..n] + Continuation(csid, csz, rest[n..])
  {
    if csz < |rest| {
      Rejoin(soFar + BasicHeader(3, csid), rest[..csz], BasicHeader(3, csid), Chunks(Own, csid, [], csz, rest[csz..]));
      assert soFar + (BasicHeader(3, csid) + Chunks(Own, csid, [], csz, rest)) == soFar + BasicHeader(3, csid) + Chunks(Own, csid, [], csz, rest);
    } else {
      assert soFar + BasicHeader(3, csid) + rest[..n] + [] == soFar + (BasicHeader(3, csid) + rest);
    }
  }
}
