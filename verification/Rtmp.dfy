/** The receiving side of an RTMP connection: bytes are counted and acknowledged, control messages applied,
    and media written to the FLV file. */
module Rtmp {
  import opened Bytes
  import opened AmfValues
  import opened Chunk
  import opened ChunkCodec
  import opened Commands
  import opened Options
  import opened Session
  import opened Tracks
  import opened ChunkStream
  import Amf0
  import Amf0Codec
  import Flv
  import FlvFile

  class Connection {
    const table: ChunkTable
    const flv: FlvFile.FlvWriter
    var chunkSizeRecv: nat
    var windowSize: nat
    var readCount: nat
    var totalReadBytes: nat
    var timestamp: int
    var startTime: nat
    var fixAggrTimestamp: bool
    var streamId: nat
    var duration: int
    var isRecorded: bool
    var transactionId: nat
    const chunkSizeSend: nat := SendSize
    const floats: Floats
    var sent: seq<Data>
    ghost var acked: nat
    ghost var tags: seq<Flv.Tag>

    /** Connected, with a fresh file. */
    constructor (flv: FlvFile.FlvWriter, startTime: nat, fix: bool, floats: Floats)
      requires flv.InStep([])
      ensures Valid() && Media() == Fresh && Counters() == Ack(0, 0, 0)
      ensures this.flv == flv && fresh(table) && table.info == map[] && sent == []
      ensures chunkSizeRecv == 128 && windowSize == 2_500_000
      ensures this.startTime == startTime && fixAggrTimestamp == fix && duration == 0 && !isRecorded
    {
      table := new ChunkTable();
      this.flv := flv;
      chunkSizeRecv, windowSize := 128, 2_500_000;
      readCount, totalReadBytes, timestamp := 0, 0, 0;
      this.startTime, fixAggrTimestamp := startTime, fix;
      streamId, sent, acked, tags := 0, [], 0, [];
      duration, isRecorded, transactionId, this.floats := 0, false, 1, floats;
    }

    /** The file is made of the tags written. */
    ghost predicate Valid()
      reads this, flv
    {
      flv.Holds(tags)
    }

    ghost function Media(): State
      reads this, flv
    {
      State(timestamp, flv.audioTimestamp, flv.videoTimestamp, tags)
    }

    ghost function Counters(): Ack
      reads this
    {
      Ack(totalReadBytes, readCount, acked)
    }

    /** All that receiving changes, but for the reader and the chunk streams. */
    ghost function Memo(): Memory
      reads this, flv
    {
      Memory(chunkSizeRecv, windowSize, duration, isRecorded, Counters(), Media(), sent)
    }

    ghost function Config(): Setup
      reads this
    {
      Setup(startTime, fixAggrTimestamp, floats, transactionId)
    }

    /** The byte counter; half a window unacknowledged makes it send the total. */
    method Count(rdbytes: nat)
      modifies this`totalReadBytes, this`readCount, this`acked, this`sent
      ensures Memo() == CountedIn(old(Memo()), rdbytes)
    {
      totalReadBytes := totalReadBytes + rdbytes;
      readCount := readCount + rdbytes;
      if readCount >= windowSize / 2 {
        readCount := 0;
        var ack := EncodeAcknowledgement(totalReadBytes);
        sent := sent + [ack];
        acked := totalReadBytes;
      }
    }

    method WriteTrack(kind: byte, data: Data, ts: int)
      requires Valid() && IsTrack(kind)
      modifies this`tags, flv
      ensures Valid() && Media() == Offered(old(Media()), Flv.Tag(kind, ts, data))
    {
      ghost var t := Flv.Tag(kind, ts, data);
      ghost var before := flv.file;
      if kind == Flv.AUDIO {
        flv.WriteAudio(data, ts);
      } else {
        flv.WriteVideo(data, ts);
      }
      if flv.file != before {
        assert (tags + [t])[..|tags|] == tags;
        tags := tags + [t];
      }
    }

    method WriteMetaData(data: Data, ts: int)
      requires Valid()
      modifies this`tags, flv
      ensures Valid() && Media() == Offered(old(Media()), Flv.Tag(18, ts, data))
    {
      flv.WriteMetaData(data, ts);
      assert (tags + [Flv.Tag(18, ts, data)])[..|tags|] == tags;
      tags := tags + [Flv.Tag(18, ts, data)];
    }

    method Advance(ts: int)
      modifies this`timestamp
      ensures timestamp == if ts > old(timestamp) then ts else old(timestamp)
    {
      if ts > timestamp {
        timestamp := ts;
      }
    }

    /** The loop over the parts of an aggregate. */
    method WriteParts(ts: int, parts: seq<SubMsg>) returns (o: Outcome)
      requires Valid()
      modifies this`tags, flv
      ensures Valid()
      ensures o == if IsRefused(Tracks.Parts(ts, parts), fixAggrTimestamp) then Error(Other) else Handled
      ensures Media() == AllOffered(old(Media()), Offers(Tracks.Parts(ts, parts), fixAggrTimestamp))
    {
      var fstTs := 0;
      ghost var shift := if fixAggrTimestamp && parts != [] then ts - parts[0].ts else 0;
      ghost var start := Media();
      for i := 0 to |parts|
        invariant Valid() && (i > 0 && !fixAggrTimestamp ==> parts[0].ts == ts)
        invariant i > 0 && fixAggrTimestamp ==> fstTs == parts[0].ts
        invariant Media() == AllOffered(start, PartOffers(parts[..i], shift))
      {
        var ok, tsAggr;
        ok, fstTs, tsAggr := PartTime(ts, parts[i], i == 0, fstTs);
        if !ok {
          NoOffers(ts, parts, start);
          return Error(Other);
        }
        ghost var before := Media();
        WritePart(parts[i], tsAggr);
        PartStep(parts, i, shift, start, tsAggr, before, Media());
      }
      AllPartsOffered(ts, parts, fixAggrTimestamp, shift);
      return Handled;
    }

    /** The timestamp of a part, `fstTs` being that of the first. */
    method PartTime(ts: int, v: SubMsg, isFirst: bool, fstTs: nat) returns (ok: bool, fst: nat, tsAggr: int)
      ensures ok == (isFirst && !fixAggrTimestamp ==> v.ts == ts)
      ensures fst == if isFirst && fixAggrTimestamp then v.ts else fstTs
      ensures tsAggr == if fixAggrTimestamp then ts + v.ts - fst else v.ts
    {
      ok, fst, tsAggr := true, fstTs, v.ts;
      if fixAggrTimestamp {
        if isFirst {
          fst := v.ts;
        }
        tsAggr := ts + (v.ts - fst);
      } else if isFirst {
        ok := ts == v.ts;
      }
    }

    method WritePart(v: SubMsg, ts: int)
      requires Valid()
      modifies this`tags, flv
      ensures Valid()
      ensures Media() == if IsTrack(v.typeId) then Offered(old(Media()), Flv.Tag(v.typeId, ts, v.data)) else old(Media())
    {
      if v.typeId == 8 || v.typeId == 9 {
        WriteTrack(v.typeId, v.data, ts);
      }
    }

    /** `CheckStatus`: what a status says about the recording, and whether it is the pause waited for. */
    method CheckStatus(data: Value, ts: int, waitPause: bool) returns (o: Outcome, paused: bool)
      ensures o == StatusOutcome(data, ts, duration) && paused == (waitPause && IsPauseNotice(data))
    {
      o, paused := Handled, false;
      var code := FindString(data, Text("code"));
      match code
      case None => o := Error(Other);
      case Some(c) =>
        PauseIsNoEnd();
        if c == Text("NetStream.Pause.Notify") {
          paused := waitPause;
        } else if c == Text("NetStream.Play.Complete") {
          o := if ts + 1000 > duration then Completed else Incomplete;
        } else if c == Text("NetStream.Play.Failed") {
          o := Completed;
        }
    }

    /** Metadata as a tag: an encoding error goes unnoticed, a value of unknown kind ends the process. */
    method HandleMetaData(values: seq<Value>, ts: int) returns (o: Outcome, ghost e: Event)
      requires Valid() && IsMetaData(values) && values[1].Obj?
      modifies this`tags, flv
      ensures Valid() && Media() == Tracks.Handled(old(Media()), e, fixAggrTimestamp)
      ensures o == Handled || (o == Stopped && !Amf0Codec.KnownAll(MetaData(values)))
      ensures IsDataEvent(values, ts, o, e)
    {
      var dat := Amf0Codec.EncodeAll(MetaData(values), true);
      if dat.Exit? {
        return Stopped, Silent;
      }
      var data := if dat.Done? then dat.value else [];
      if dat.Done? {
        NotEmpty(MetaData(values), true, data);
      }
      ghost var before := Media();
      WriteMetaData(data, ts);
      OneOffered(before, Flv.Tag(18, ts, data));
      o, e := Handled, Plain(Flv.Tag(18, ts, data));
    }

    /** Play status and metadata; other data is nothing to the recording. */
    method HandleData(values: seq<Value>, ts: int, waitPause: bool) returns (o: Outcome, paused: bool, ghost e: Event)
      requires Valid()
      modifies this`tags, this`duration, flv
      ensures Valid() && Media() == Tracks.Handled(old(Media()), e, fixAggrTimestamp)
      ensures IsDataOutcome(values, ts, old(duration), o) && IsDataEvent(values, ts, o, e)
      ensures paused == (waitPause && IsPlayStatus(values) && IsPauseNotice(values[1]))
      ensures duration == DurationIn(values, old(duration), floats)
    {
      o, paused, e := Handled, false, Silent;
      if |values| >= 2 {
        if !values[0].Str? {
          return Error(Other), false, Silent;
        }
        DataNames();
        if values[0].s == Text("onPlayStatus") {
          o, paused := CheckStatus(values[1], ts, waitPause);
        } else if values[0].s == Text("onMetaData") {
          var dur := FindNumber(values[1], Text("duration"));
          if dur.Some? {
            duration := floats.millis(dur.value);
          }
          if values[1].Obj? {
            o, e := HandleMetaData(values, ts);
          }
        }
      }
    }

    /** A command: the answer waited for, a failure, or a status. */
    method HandleCommand(values: seq<Value>, ts: int, want: Wanted) returns (o: Outcome, sig: Signal)
      ensures o == CommandOutcome(values, ts, duration) && sig == CommandSignal(values, want, floats)
    {
      o, sig := Handled, NoSignal;
      if |values| >= 3 {
        if !values[0].Str? {
          return Error(Other), NoSignal;
        }
        if !values[1].Num? {
          return Error(Other), NoSignal;
        }
        var trId := floats.toInt(values[1].bits);
        if trId > 0 && trId == want.id {
          sig := sig.(answered := true);
          if |values| >= 4 {
            sig := sig.(data := Some(values[3]));
          }
        }
        if values[0].s in ErrorNames() {
          o := Error(Other);
        } else if values[0].s == Text("onStatus") {
          if |values| == 3 {
            o := Stopped;
          } else {
            var paused;
            o, paused := CheckStatus(values[3], ts, want.pause);
            sig := sig.(paused := paused);
          }
        }
      }
    }

    /** A control message: chunk size, acknowledgement window, or a user control event. */
    method HandleControl(m: Received) returns (o: Outcome)
      requires !m.payload.Media? && !m.payload.Parts? && !m.payload.Values?
      modifies this`chunkSizeRecv, this`windowSize, this`streamId, this`isRecorded, this`sent
      ensures o == if old(isRecorded) && IsBufferEmpty(m.payload) then Incomplete else Handled
      ensures streamId == if m.payload.Control? && |m.payload.numbers| >= 2 && m.payload.numbers[0] == 0 then m.payload.numbers[1] else old(streamId)
      ensures Memo() == old(Memo()).(
        csz := SizeAfter(m, 1, old(chunkSizeRecv)), window := SizeAfter(m, 5, old(windowSize)),
        recorded := RecordedAfter(m.payload, old(isRecorded)), sent := old(sent) + Reply(m.payload, old(isRecorded), SendSize))
    {
      o := Handled;
      match m.payload
      case Size(n) =>
        if m.typeId == 1 {
          chunkSizeRecv := n;
        } else if m.typeId == 5 {
          windowSize := n;
        }
      case Control(numbers) =>
        if |numbers| >= 2 && numbers[0] == 6 {
          var pong := EncodePingResponse(numbers[1]);
          sent := sent + [pong];
        } else if |numbers| >= 2 && numbers[0] == 0 {
          streamId := numbers[1];
        } else if |numbers| >= 1 && numbers[0] == 4 {
          isRecorded := true;
        } else if |numbers| >= 1 && numbers[0] == 31 && isRecorded {
          var pause := PauseRaw(chunkSizeSend);
          sent := sent + [pause];
          o := Incomplete;
        }
      case _ =>
    }

    method HandleMedia(kind: byte, ts: int, data: Data)
      requires Valid() && IsTrack(kind)
      modifies this`timestamp, this`tags, flv
      ensures Valid() && Media() == Tracks.Handled(old(Media()), Tracks.Media(kind, ts, data), fixAggrTimestamp)
    {
      Advance(ts);
      OneOffered(Media(), Flv.Tag(kind, ts, data));
      WriteTrack(kind, data, ts);
    }

    method HandleParts(ts: int, parts: seq<SubMsg>) returns (o: Outcome)
      requires Valid()
      modifies this`timestamp, this`tags, flv
      ensures Valid() && Media() == Tracks.Handled(old(Media()), Tracks.Parts(ts, parts), fixAggrTimestamp)
      ensures o == if IsRefused(Tracks.Parts(ts, parts), fixAggrTimestamp) then Error(Other) else Handled
    {
      Advance(ts);
      o := WriteParts(ts, parts);
    }

    method HandleValues(m: Received, want: Wanted) returns (o: Outcome, sig: Signal, ghost e: Event)
      requires Valid() && m.payload.Values?
      modifies this`tags, this`duration, flv
      ensures Valid() && Handles(Config(), old(Memo()), m, want, o, sig, e, Memo())
    {
      ghost var a := Memo();
      if m.typeId == 18 {
        var paused;
        o, paused, e := HandleData(m.payload.values, m.ts + startTime, want.pause);
        sig := Signal(false, None, paused);
        HandlesData(Config(), a, m, want, o, paused, e);
      } else {
        o, sig := HandleCommand(m.payload.values, m.ts + startTime, want);
        e := Silent;
        HandlesCommand(Config(), a, m, want);
      }
    }

    /** The switch over message types. */
    method Dispatch(m: Received, want: Wanted) returns (o: Outcome, sig: Signal, ghost e: Event)
      requires Valid() && (m.payload.Media? ==> IsTrack(m.typeId))
      modifies this`timestamp, this`tags, this`chunkSizeRecv, this`windowSize, this`streamId, this`duration, this`isRecorded, this`sent, flv
      ensures Valid() && Handles(Config(), old(Memo()), m, want, o, sig, e, Memo())
    {
      o, sig, e := Handled, NoSignal, Silent;
      var ts := m.ts + startTime;
      ghost var a := Memo();
      match m.payload
      case Media(data) =>
        e := Tracks.Media(m.typeId, ts, data);
        HandleMedia(m.typeId, ts, data);
        HandlesMedia(Config(), a, m, want, e);
      case Parts(parts) =>
        e := Tracks.Parts(ts, parts);
        o := HandleParts(ts, parts);
        HandlesParts(Config(), a, m, want, o, e);
      case Values(values) =>
        o, sig, e := HandleValues(m, want);
      case _ =>
        o := HandleControl(m);
        HandlesControl(Config(), a, m, want);
    }

    /** `recvChunk`: one message is read, counted and handled; `p` is what could be read. */
    method RecvChunk(rdr: Reader, want: Wanted) returns (o: Outcome, sig: Signal, ghost e: Event, ghost p: Parse<Received>)
      requires Valid() && rdr.Valid()
      modifies this, table, flv, rdr
      ensures Valid() && rdr.Valid() && Config() == old(Config())
      ensures p == DecodedOne(old(rdr.Rest()), old(chunkSizeRecv), old(table.info))
      ensures p.Ok? ==> rdr.Rest() == p.rest && |p.rest| < |old(rdr.Rest())|
      ensures p.Ok? ==> table.info == InfoAfter(old(rdr.Rest()), old(table.info))
      ensures p.Ok? ==> Handles(Config(), CountedIn(old(Memo()), p.value.size), p.value, want, o, sig, e, Memo())
      ensures !p.Ok? ==> o == Unread(p) && Memo() == old(Memo())
    {
      e, sig := Silent, NoSignal;
      p := DecodedOne(rdr.Rest(), chunkSizeRecv, table.info);
      var r := DecodeOne(rdr, chunkSizeRecv, table);
      match r
      case Failed(k) => o := if k == Malformed then Incomplete else Error(k);
      case Exit => o := Stopped;
      case Done(m) =>
        Count(m.size);
        o, sig, e := Dispatch(m, want);
    }

    ghost function Here(rdr: Reader, n: nat): Place
      requires rdr.Valid()
      reads this, table, flv, rdr
    {
      At(rdr.Rest(), table.info, Memo(), n)
    }

    /** One round of the loop in `wait`, as an entry of the log if there was a message. */
    method Receive(rdr: Reader, mode: Mode, n: nat) returns (o: Outcome, ghost got: bool, ghost x: Entry)
      requires Valid() && rdr.Valid()
      modifies this, table, flv, rdr
      ensures Valid() && rdr.Valid() && Config() == old(Config())
      ensures got ==> Comes(Config(), mode, old(Here(rdr, n)), x, Here(rdr, n + 1)) && o == x.end && |rdr.Rest()| < |old(rdr.Rest())|
      ensures !got ==> Unreadable(old(Here(rdr, n)), o) && Memo() == old(Memo())
    {
      ghost var a := Here(rdr, n);
      ghost var e, p;
      var raw, sig;
      raw, sig, e, p := RecvChunk(rdr, WantedBy(mode));
      o := Ends(mode, raw, sig, n + 1);
      got := p.Ok?;
      x := Entry(if got then p.value else Received(0, 0, Size(0), 0), a.memory.window, e, raw, o);
    }

    /** The loop of `wait`. */
    method ReceiveAll(rdr: Reader, mode: Mode) returns (o: Outcome, ghost places: seq<Place>, ghost log: seq<Entry>)
      requires Valid() && rdr.Valid()
      modifies this, table, flv, rdr
      ensures Valid() && o != Handled && Config() == old(Config())
      ensures IsStream(Config(), mode, places, log) && places[0] == old(Here(rdr, 0)) && places[|log|].memory == Memo()
      ensures EndsAs(places, log, o)
    {
      ghost var s, first := Config(), Here(rdr, 0);
      places, log := [first], [];
      o := Handled;
      var n := 0;
      while o == Handled
        invariant Valid() && rdr.Valid() && Config() == s
        invariant IsStream(s, mode, places, log) && places[0] == first && places[|log|].memory == Memo()
        invariant o == Handled ==> n == |log| && places[n] == Here(rdr, n) && Waits(log)
        invariant o != Handled ==> EndsAs(places, log, o)
        decreases if o == Handled then |rdr.Rest()| + 1 else 0
      {
        ghost var got, x;
        o, got, x := Receive(rdr, mode, n);
        n := n + 1;
        if got {
          ghost var b := Here(rdr, n);
          StreamMore(s, mode, places, log, x, b);
          places, log := places + [b], log + [x];
        } else {
          EndsUnread(places, log, o);
        }
      }
    }

    /** `wait`: messages are received until one ends the wait. `log` tells which came in, read one after the other at `places`,
        and what each was. Started on a fresh file, it leaves exactly the running maxima of each track in it. */
    method Wait(rdr: Reader, mode: Mode) returns (o: Outcome, ghost places: seq<Place>, ghost log: seq<Entry>)
      requires Valid() && rdr.Valid()
      modifies this, table, flv, rdr
      ensures Valid() && o != Handled && Config() == old(Config())
      ensures IsStream(Config(), mode, places, log) && places[0] == old(Here(rdr, 0)) && places[|log|].memory == Memo()
      ensures EndsAs(places, log, o)
      ensures Media() == Run(old(Media()), Events(log, fixAggrTimestamp))
      ensures Counters() == CountedAll(old(Counters()), Steps(log))
      ensures old(Media()) == Fresh ==> tags == Records(RunOffers(Events(log, fixAggrTimestamp))) && flv.file == Flv.FileBytes(tags)
    {
      o, places, log := ReceiveAll(rdr, mode);
      WholeStream(Config(), mode, places, log);
      if old(Media()) == Fresh {
        RunWritesRecords(Events(log, fixAggrTimestamp));
      }
    }
  }

  // ---------- Commands and their answers ----------

  /** The sending half of `Command`. The id goes out as a number; `body` is what was encoded. */
  method SendCommand(c: Connection, name: Data, args: seq<Value>) returns (stopped: bool, trId: nat, ghost body: Data)
    requires c.Valid()
    modifies c`transactionId, c`sent
    ensures trId == TransactionId(name, old(c.transactionId))
    ensures c.transactionId == if name in StreamNames() && name != Text("connect") then old(c.transactionId) else trId
    ensures stopped ==> c.sent == old(c.sent) && !Amf0Codec.KnownAll([Str(name), Int(c.floats.fromInt(trId))] + args)
    ensures !stopped ==>
      && c.sent == old(c.sent) + [Wire(c.chunkSizeSend, name, body)]
      && (body != [] <==> Amf0Codec.EncodableAll([Str(name), Int(c.floats.fromInt(trId))] + args))
      && (body != [] ==> Amf0.IsEncodingAll([Str(name), Int(c.floats.fromInt(trId))] + args, false, body))
      && (body != [] && |body| < 0x100_0000 && Amf0.CleanAll([Str(name), Int(c.floats.fromInt(trId))] + args)
          ==> IsReceivedAs(c.sent[|c.sent| - 1], 128, Amf0.NormAll([Str(name), Int(c.floats.fromInt(trId))] + args)))
  {
    trId := 0;
    if name == Text("connect") {
      c.transactionId := 1;
      trId := c.transactionId;
    } else if name !in StreamNames() {
      c.transactionId := c.transactionId + 1;
      trId := c.transactionId;
    }
    var r;
    r, body := Command(name, c.floats.fromInt(trId), args, c.chunkSizeSend);
    stopped := r.Exit?;
    if !stopped {
      c.sent := c.sent + [r.value];
    }
  }

  /** `Command`: a command with a transaction id waits for its answer, and handles all that comes before it. */
  method Call(c: Connection, rdr: Reader, name: Data, args: seq<Value>)
    returns (o: Outcome, trId: nat, ghost stopped: bool, ghost wire: Data, ghost places: seq<Place>, ghost log: seq<Entry>)
    requires c.Valid() && rdr.Valid()
    modifies c, c.table, c.flv, rdr
    ensures c.Valid() && trId == TransactionId(name, old(c.transactionId))
    ensures stopped ==> o == Stopped && c.Memo() == old(c.Memo()) && !Amf0Codec.KnownAll([Str(name), Int(c.floats.fromInt(trId))] + args)
    ensures !stopped && trId == 0 ==> o == Handled && c.Memo() == old(c.Memo()).(sent := old(c.sent) + [wire])
    ensures !stopped && trId > 0 ==>
      && IsStream(c.Config(), ForAnswer(trId), places, log) && EndsAs(places, log, o)
      && places[0] == old(c.Here(rdr, 0)).(memory := old(c.Memo()).(sent := old(c.sent) + [wire])) && places[|log|].memory == c.Memo()
  {
    places, log, wire := [], [], [];
    var failed;
    ghost var body;
    failed, trId, body := SendCommand(c, name, args);
    stopped := failed;
    if failed {
      o := Stopped;
      return;
    }
    wire := Wire(c.chunkSizeSend, name, body);
    o := Handled;
    if trId > 0 {
      o, places, log := c.Wait(rdr, ForAnswer(trId));
    }
  }

  /** Whatever is being waited for, receiving a status without an argument ends the process. */
  method BareStatus(connection: Connection, rdr: Reader, want: Wanted, id: Float64, ghost v: Value, ghost ecma: bool, ghost body: Data,
                    ghost csid: nat, ghost streamId: int, ghost rest: Data)
    returns (o: Outcome)
    requires connection.Valid() && rdr.Valid() && connection.chunkSizeRecv > 0 && 2 <= csid <= 65599 && |body| < 0x100_0000
    requires Amf0.Clean(v) && Amf0.IsEncodingAll([Str(Text("onStatus")), Num(id), v], ecma, body)
    requires rdr.Rest() == CommandBytes(connection.chunkSizeRecv, csid, streamId, body) + rest
    modifies connection, connection.table, connection.flv, rdr
    ensures o == Stopped
  {
    StatusReceived(id, v, ecma, body, connection.chunkSizeRecv, csid, streamId, connection.table.info, rest);
    ghost var a := connection.Memo();
    var sig;
    ghost var e, p;
    o, sig, e, p := connection.RecvChunk(rdr, want);
    StoppedByStatus(p.value.payload.values, p.value.ts + connection.startTime, a.duration);
  }

  lemma WholeStream(s: Setup, mode: Mode, places: seq<Place>, log: seq<Entry>)
    requires IsStream(s, mode, places, log)
    ensures places[|log|].memory.media == Run(places[0].memory.media, Events(log, s.fix))
    ensures places[|log|].memory.ack == CountedAll(places[0].memory.ack, Steps(log))
  {
    StreamRuns(s, mode, places, log, |log|);
    assert Events(log, s.fix)[..|log|] == Events(log, s.fix) && Steps(log)[..|log|] == Steps(log);
  }

  /** The names differ. */
  lemma PauseIsNoEnd()
    ensures Text("NetStream.Pause.Notify") != Text("NetStream.Play.Complete")
    ensures Text("NetStream.Pause.Notify") != Text("NetStream.Play.Failed")
  {
    assert Text("NetStream.Pause.Notify")[11] == 97 && Text("NetStream.Play.Complete")[11] == 108;
    assert Text("NetStream.Play.Failed")[11] == 108;
  }

  lemma DataNames()
    ensures Text("onPlayStatus") != Text("onMetaData")
  {
    assert |Text("onPlayStatus")| != |Text("onMetaData")|;
  }

  lemma OneOffered(s: State, t: Flv.Tag)
    ensures AllOffered(s, [t]) == Offered(s, t)
  {
    assert [t][..0] == [] && AllOffered(s, []) == s;
  }

  lemma NoOffers(ts: int, parts: seq<SubMsg>, s: State)
    requires parts != [] && parts[0].ts != ts
    ensures IsRefused(Tracks.Parts(ts, parts), false) && AllOffered(s, Offers(Tracks.Parts(ts, parts), false)) == s
    ensures AllOffered(s, PartOffers(parts[..0], 0)) == s
  {
  }

  lemma AllPartsOffered(ts: int, parts: seq<SubMsg>, fix: bool, shift: int)
    requires !fix && parts != [] ==> parts[0].ts == ts
    requires shift == if fix && parts != [] then ts - parts[0].ts else 0
    ensures !IsRefused(Tracks.Parts(ts, parts), fix)
    ensures Offers(Tracks.Parts(ts, parts), fix) == PartOffers(parts[..|parts|], shift)
  {
    assert parts[..|parts|] == parts;
  }

  lemma PartStep(parts: seq<SubMsg>, i: nat, shift: int, start: State, ts: int, before: State, after: State)
    requires i < |parts| && ts == parts[i].ts + shift
    requires before == AllOffered(start, PartOffers(parts[..i], shift))
    requires after == if IsTrack(parts[i].typeId) then Offered(before, Flv.Tag(parts[i].typeId, ts, parts[i].data)) else before
    ensures after == AllOffered(start, PartOffers(parts[..i + 1], shift))
  {
    var p := parts[i];
    assert parts[..i + 1][..i] == parts[..i];
    var front := PartOffers(parts[..i], shift);
    if IsTrack(p.typeId) {
      var t := Flv.Tag(p.typeId, ts, p.data);
      OneOffered(before, t);
      OfferedAppend(start, front, [t]);
    } else {
      assert front + [] == front;
    }
  }
}
