/** What single messages mean to the recording and to whoever waits, said of the values that carry them. */
module Answers {
  import opened Options
  import opened Bytes
  import opened AmfValues
  import opened Chunk
  import opened ChunkStream
  import opened Commands
  import opened Session
  import opened Tracks
  import Flv
  import Amf0
  import Amf0Codec

  // ---------- Status ----------

  /** The status is an object that says `code`. */
  predicate Says(status: Value, code: string) {
    status.Obj? && Text("code") in status.fields && status.fields[Text("code")] == Str(Text(code))
  }

  predicate SaysNothing(status: Value) {
    status.Obj? && (Text("code") in status.fields ==> !status.fields[Text("code")].Str?)
  }

  lemma CodeNames()
    ensures Text("NetStream.Play.Complete") != Text("NetStream.Play.Failed")
  {
    assert |Text("NetStream.Play.Complete")| == 23 && |Text("NetStream.Play.Failed")| == 21;
  }

  /** A recording is completed by a status that says so within a second of its duration, or that playing has failed; a status that says
      so earlier leaves it incomplete; one that says nothing is an error; any other means nothing. */
  lemma StatusMeans(status: Value, ts: int, duration: int)
    requires status.Obj?
    ensures StatusOutcome(status, ts, duration) ==
      if Says(status, "NetStream.Play.Complete") then (if ts + 1000 > duration then Completed else Incomplete)
      else if Says(status, "NetStream.Play.Failed") then Completed
      else if SaysNothing(status) then Error(Other)
      else Handled
    ensures IsPauseNotice(status) <==> Says(status, "NetStream.Pause.Notify")
  {
    CodeNames();
  }

  /** Where a message carries a status: behind "onPlayStatus" in data, or as the fourth value of an "onStatus" command. */
  predicate Carries(m: Received, status: Value) {
    && m.payload.Values?
    && var vs := m.payload.values;
       if m.typeId == 18 then |vs| >= 2 && vs[0] == Str(Text("onPlayStatus")) && vs[1] == status
       else |vs| >= 4 && vs[0] == Str(Text("onStatus")) && vs[1].Num? && vs[3] == status
  }

  /** Handling a message that carries a status ends as the status says. */
  lemma StatusCarried(m: Received, ts: int, fix: bool, duration: int, recorded: bool, status: Value, o: Outcome)
    requires Carries(m, status)
    ensures IsOutcomeOf(m, ts, fix, duration, recorded, o) <==> o == StatusOutcome(status, ts, duration)
  {
    StatusIsNoError();
  }

  /** And nothing else completes a recording. */
  lemma OnlyStatusCompletes(m: Received, ts: int, fix: bool, duration: int, recorded: bool)
    requires IsOutcomeOf(m, ts, fix, duration, recorded, Completed)
    ensures exists status :: Carries(m, status)
  {
    var vs := m.payload.values;
    if m.typeId == 18 { assert Carries(m, vs[1]); } else { assert Carries(m, vs[3]); }
  }

  /** A list answers for its first element that has the key, an object for itself. */
  lemma FindMeans(m: map<Data, Value>, key: Data, before: seq<Value>, v: Value, after: seq<Value>)
    requires forall u :: u in before ==> u.Obj? && key !in u.fields
    ensures Find(Obj(m), key) == if key in m then Some(m[key]) else None
    ensures v.Obj? && key in v.fields ==> Find(List(before + [v] + after), key) == Some(v.fields[key])
  {
    if v.Obj? && key in v.fields { FirstFound(before + [v] + after, |before|, 0, key); }
  }

  lemma {:induction false} FirstFound(items: seq<Value>, n: nat, i: nat, key: Data)
    requires i <= n < |items| && items[n].Obj? && key in items[n].fields
    requires forall k :: i <= k < n ==> items[k].Obj? && key !in items[k].fields
    ensures FindFrom(List(items), i, key) == Some(items[n].fields[key])
    decreases n - i
  {
    assert List(items).items[i] == items[i];
    if i < n { FirstFound(items, n, i + 1, key); }
  }

  // ---------- Answers ----------

  /** A command answers the one waited for exactly if it carries its id, and the answer is its fourth value. */
  lemma AnswerMeans(name: Data, b: Float64, info: Value, more: seq<Value>, want: Wanted, floats: Floats)
    ensures var sig := CommandSignal([Str(name), Num(b), info] + more, want, floats);
      && (sig.answered <==> want.id > 0 && floats.toInt(b) == want.id)
      && (sig.answered && more != [] ==> sig.data == Some(more[0]))
      && (sig.answered && more == [] ==> sig.data == None)
  {
    var vs := [Str(name), Num(b), info] + more;
    assert vs[0] == Str(name) && vs[1] == Num(b);
    if more != [] { assert vs[3] == more[0]; }
  }

  /** A command that waits takes the answer sent with its id, and no message with another one. */
  lemma AnswerTaken(id: nat, other: nat, name: Data, info: Value, answer: Value, floats: Floats)
    requires id > 0 && floats.toInt(floats.fromInt(id)) == id && floats.toInt(floats.fromInt(other)) == other
    ensures var sig := CommandSignal([Str(name), Num(floats.fromInt(other)), info, answer], WantedBy(ForAnswer(id)), floats);
      Ends(ForAnswer(id), Handled, sig, 1) == if other == id then Answered(Some(answer)) else Handled
  {
    AnswerMeans(name, floats.fromInt(other), info, [answer], WantedBy(ForAnswer(id)), floats);
    assert [Str(name), Num(floats.fromInt(other)), info] + [answer] == [Str(name), Num(floats.fromInt(other)), info, answer];
  }

  /** A handled message ends a wait only if it is what was waited for, or the last of a test. */
  lemma WaitsFor(mode: Mode, sig: Signal, n: nat)
    ensures Ends(mode, Handled, sig, n) == Handled
      <==> mode == ForEnd || (mode.ForAnswer? && !sig.answered) || (mode == ForPause && !sig.paused) || (mode.ForTest? && n < mode.messages)
    ensures Ends(ForPause, Handled, sig.(paused := true), n) == Paused
  {
  }

  // ---------- What is sent in answer ----------

  /** A ping is answered by one message, which the peer receives as the same number. */
  lemma PingAnswered(n: nat, recorded: bool, csz: nat, peer: nat, info: InfoTable, rest: Data)
    requires csz > 0 && peer >= 6
    ensures var sent := Reply(Control([6, n]), recorded, csz);
      |sent| == 1 && IsControlFor(sent[0], rest, peer, info, 4, Control([7, n % 0x1_0000_0000]))
  {
    PongReceived(peer, info, rest, n);
  }

  /** A recorded stream that has run dry is paused by one command, which the peer receives as such. */
  lemma DryStreamPaused(csz: nat)
    requires csz > 0
    ensures var sent := Reply(Control([31]), true, csz);
      |sent| == 1 && IsReceivedAs(sent[0], csz, [Str(Text("pauseRaw")), Num(Zero), Null, Bool(true), Num(Zero)])
  {
    var cmd := [Str(Text("pauseRaw")), Int(Zero), Null, Bool(true), Int(Zero)];
    ScalarsEncode(cmd);
    ScalarsClean(cmd);
    ScalarNorms(cmd);
    SentAndReceived(csz, 8, 1, cmd, ScalarBytes(cmd));
    assert NormScalars(cmd) == [Str(Text("pauseRaw")), Num(Zero), Null, Bool(true), Num(Zero)];
  }

  lemma {:induction false} ScalarsEncode(vs: seq<Value>)
    requires forall v :: v in vs ==> IsScalar(v)
    ensures Amf0.IsEncodingAll(vs, false, ScalarBytes(vs))
  {
    if vs != [] {
      ScalarsEncode(vs[1..]);
      OneScalar(vs[0], ScalarBytes(vs), ScalarBytes(vs[1..]));
    }
  }

  lemma OneScalar(v: Value, all: Data, tail: Data)
    requires IsScalar(v) && all == ScalarBytes([v]) + tail
    ensures Amf0.IsAppended(all, ScalarBytes([v]), tail) && Amf0.IsEncoding(v, false, ScalarBytes([v]))
  {
    assert [v][1..] == [] && ScalarBytes([]) == [];
  }

  lemma {:induction false} ScalarsClean(vs: seq<Value>)
    requires forall v :: v in vs ==> IsScalar(v)
    ensures Amf0.CleanAll(vs) && |ScalarBytes(vs)| <= 0x1_0002 * |vs|
  {
    if vs != [] {
      assert IsScalar(vs[0]);
      ScalarsClean(vs[1..]);
    }
  }

  function NormScalars(vs: seq<Value>): seq<Value> {
    seq(|vs|, i requires 0 <= i < |vs| => if vs[i].Int? then Num(vs[i].bits) else vs[i])
  }

  lemma {:induction false} ScalarNorms(vs: seq<Value>)
    requires forall v :: v in vs ==> IsScalar(v)
    ensures Amf0.NormAll(vs) == NormScalars(vs)
  {
    if vs != [] {
      assert IsScalar(vs[0]);
      ScalarNorms(vs[1..]);
      assert NormScalars(vs) == [if vs[0].Int? then Num(vs[0].bits) else vs[0]] + NormScalars(vs[1..]);
    }
  }

  /** Metadata that has a duration sets it; nothing else does. */
  lemma DurationMeans(m: Received, fields: map<Data, Value>, duration: int, floats: Floats)
    ensures m.typeId == 18 && m.payload == Values([Str(Text("onMetaData")), Obj(fields)]) ==>
      DurationAfter(m, duration, floats)
      == if Text("duration") in fields && fields[Text("duration")].Num? then floats.millis(fields[Text("duration")].bits) else duration
    ensures m.typeId != 18 ==> DurationAfter(m, duration, floats) == duration
  {
  }

  /** Metadata that can be encoded becomes one tag of kind 18 at the time of its message, from which the same metadata can be decoded. */
  lemma MetaDataKept(s: Setup, a: Memory, m: Received, fields: map<Data, Value>, want: Wanted, sig: Signal, e: Event, b: Memory)
    returns (t: Flv.Tag)
    requires m.typeId == 18 && m.payload == Values([Str(Text("onMetaData")), Obj(fields)])
    requires Handles(s, a, m, want, Handled, sig, e, b)
    requires Amf0.Clean(Obj(fields)) && Amf0Codec.EncodableAll([Str(Text("onMetaData")), Obj(fields)])
    ensures b.media.tags == a.media.tags + [t] && t.kind == 18 && t.ts == m.ts + s.startTime
    ensures Amf0.DecodedAll(t.data) == Ok([Str(Text("onMetaData")), Amf0.Norm(Obj(fields))], [])
  {
    t := e.tag;
    var vs := [Str(Text("onMetaData")), Obj(fields)];
    assert MetaData(vs) == vs && IsMetaTag(e, vs, m.ts + s.startTime);
    OneTag(a.media, t, s.fix);
    NamedClean(Text("onMetaData"), Obj(fields));
    Amf0.AllRoundTrip(vs, true, t.data);
  }

  lemma OneTag(a: State, t: Flv.Tag, fix: bool)
    requires t.kind == 18
    ensures Tracks.Handled(a, Plain(t), fix).tags == a.tags + [t]
  {
    assert [t][..0] == [] && AllOffered(a, []) == a;
  }

  lemma NamedClean(name: Data, v: Value)
    requires Amf0.Clean(v)
    ensures Amf0.CleanAll([Str(name), v]) && Amf0.NormAll([Str(name), v]) == [Str(name), Amf0.Norm(v)]
  {
    assert [Str(name), v][1..] == [v] && [v][1..] == [];
    assert Amf0.NormAll([v]) == [Amf0.Norm(v)] + Amf0.NormAll([]);
  }

  /** An acknowledgement sent back to the recorder ends its wait as incomplete, to be tried again; the end of the bytes is an error. */
  lemma AckEndsWait(a: Place, total: int, rest: Data, o: Outcome)
    requires Unreadable(a, o) && a.memory.csz >= 4
    ensures a.rest == ControlBytes(3, BE32(total)) + rest ==> o == Incomplete
    ensures a.rest == [] ==> o == Error(ShortRead)
  {
    if a.rest == [] {
      assert DecodedHeader([], NoMsg) == Err(ShortRead);
      assert Started([], a.info) == Err(ShortRead);
    } else if a.rest == ControlBytes(3, BE32(total)) + rest {
      AckNotReceived(a.memory.csz, a.info, rest, total);
    }
  }

  // ---------- Settings ----------

  /** The message sets the chunk size (type 1) or the acknowledgement window (type 5). */
  predicate Sets(x: Entry, typeId: byte) {
    x.m.typeId == typeId && x.m.payload.Size?
  }

  predicate IsRecordedNotice(x: Entry) {
    x.m.payload.Control? && x.m.payload.numbers != [] && x.m.payload.numbers[0] == 4
  }

  /** What the last of the first `n` messages to set it has set, or `first` if none has. */
  function LastSet(log: seq<Entry>, typeId: byte, first: nat, n: nat): nat
    requires n <= |log|
  {
    if n == 0 then first else if Sets(log[n - 1], typeId) then log[n - 1].m.payload.n else LastSet(log, typeId, first, n - 1)
  }

  predicate SetsOn(a: Memory, x: Entry, b: Memory) {
    && b.csz == (if Sets(x, 1) then x.m.payload.n else a.csz)
    && b.window == (if Sets(x, 5) then x.m.payload.n else a.window)
    && (b.recorded <==> a.recorded || IsRecordedNotice(x))
  }

  predicate SetsAt(places: seq<Place>, log: seq<Entry>, k: nat)
    requires k < |log| < |places|
  {
    SetsOn(places[k].memory, log[k], places[k + 1].memory)
  }

  predicate AllSet(places: seq<Place>, log: seq<Entry>) {
    |places| == |log| + 1 && forall k :: 0 <= k < |log| ==> SetsAt(places, log, k)
  }

  lemma FollowsSets(s: Setup, mode: Mode, a: Place, x: Entry, b: Place)
    requires Follows(s, mode, a, x, b)
    ensures SetsOn(a.memory, x, b.memory)
  {
  }

  lemma StreamSets(s: Setup, mode: Mode, places: seq<Place>, log: seq<Entry>)
    requires IsStream(s, mode, places, log)
    ensures AllSet(places, log)
  {
    forall k | 0 <= k < |log| ensures SetsAt(places, log, k) {
      ChainAt(Link(s, mode), places, log, k);
      FollowsSets(s, mode, places[k], log[k], places[k + 1]);
    }
  }

  lemma {:induction false} SizesInForce(places: seq<Place>, log: seq<Entry>, n: nat)
    requires AllSet(places, log) && n <= |log|
    ensures places[n].memory.csz == LastSet(log, 1, places[0].memory.csz, n)
    ensures places[n].memory.window == LastSet(log, 5, places[0].memory.window, n)
  {
    if n > 0 {
      SizesInForce(places, log, n - 1);
      assert SetsAt(places, log, n - 1);
    }
  }

  lemma {:induction false} RecordedOnce(places: seq<Place>, log: seq<Entry>, n: nat)
    requires AllSet(places, log) && n <= |log|
    ensures places[n].memory.recorded <==> places[0].memory.recorded || exists k :: 0 <= k < n && IsRecordedNotice(log[k])
  {
    if n > 0 {
      RecordedOnce(places, log, n - 1);
      assert SetsAt(places, log, n - 1);
    }
  }

  /** In any stream every message is cut into chunks of the size last announced before it, and counted under the window last announced
      before it; the stream is taken for a recorded one once it is said to be. */
  lemma SettingsInForce(s: Setup, mode: Mode, places: seq<Place>, log: seq<Entry>, n: nat)
    requires IsStream(s, mode, places, log) && n < |log|
    ensures DecodedOne(places[n].rest, LastSet(log, 1, places[0].memory.csz, n), places[n].info) == Ok(log[n].m, places[n + 1].rest)
    ensures log[n].window == LastSet(log, 5, places[0].memory.window, n)
    ensures places[n].memory.recorded <==> places[0].memory.recorded || exists k :: 0 <= k < n && IsRecordedNotice(log[k])
  {
    StreamSets(s, mode, places, log);
    SizesInForce(places, log, n);
    RecordedOnce(places, log, n);
    ChainAt(Link(s, mode), places, log, n);
    LinkFollows(s, mode, places[n], log[n], places[n + 1]);
  }

  // ---------- Commands ----------

  /** Playing, seeking and pausing go to stream 1 on chunk stream 8, all else to stream 0 on chunk stream 3. */
  lemma WireStreams(csz: nat, name: Data, body: Data)
    requires csz > 0 && |body| < 0x100_0000
    ensures var w := Wire(csz, name, body);
      var about := name == Text("play") || name == Text("seek") || name == Text("pause") || name == Text("pauseRaw");
      && |w| >= 12 && w[0] == (if about then 8 else 3) && w[7] == 20 && w[8..12] == (if about then [1, 0, 0, 0] else [0, 0, 0, 0])
      && FromBE24(w[4..7]) == |body|
  {
    WireHead(csz, 8, 1, body);
    WireHead(csz, 3, 0, body);
    assert LE32(1) == [1, 0, 0, 0] && LE32(0) == [0, 0, 0, 0];
  }

  lemma WireHead(csz: nat, csid: nat, streamId: nat, body: Data)
    requires csz > 0 && 2 <= csid <= 63 && |body| < 0x100_0000
    ensures var w := CommandBytes(csz, csid, streamId, body);
      |w| >= 12 && w[0] == csid && w[7] == 20 && w[8..12] == LE32(streamId) && FromBE24(w[4..7]) == |body|
  {
    var w := CommandBytes(csz, csid, streamId, body);
    var head := [csid] + BE24(0) + BE24(|body|) + [20] + LE32(streamId);
    HeadShape([csid], BE24(0), BE24(|body|), [20], LE32(streamId), Chunks(Own, csid, [], csz, body));
    assert w == head + Chunks(Own, csid, [], csz, body);
    assert w[4..7] == BE24(|body|);
    SmallMod(|body|, 0x100_0000);
  }

  lemma HeadShape(a: Data, b: Data, c: Data, d: Data, e: Data, f: Data)
    ensures a + ((b + (c + d) + e) + ([] + f)) == a + b + c + d + e + f
  {
  }

  /** The ids of a row of commands, and the counter behind them. */
  function Ids(names: seq<Data>, last: nat): seq<nat> {
    if names == [] then []
    else
      var id := TransactionId(names[0], last);
      [id] + Ids(names[1..], if id == 0 then last else id)
  }

  lemma StreamNamesAreNot(name: Data)
    requires name in StreamNames()
    ensures name != Text("connect")
  {
    assert |Text("connect")| == 7 && |Text("play")| == 4 && |Text("seek")| == 4 && |Text("pause")| == 5 && |Text("pauseRaw")| == 8;
  }

  lemma {:induction false} IdsAbove(names: seq<Data>, last: nat)
    requires Text("connect") !in names
    ensures |Ids(names, last)| == |names|
    ensures forall i :: 0 <= i < |names| ==> (Ids(names, last)[i] == 0 <==> names[i] in StreamNames())
    ensures forall i :: 0 <= i < |names| && Ids(names, last)[i] > 0 ==> Ids(names, last)[i] > last
    ensures forall i, j :: 0 <= i < j < |names| && Ids(names, last)[i] > 0 && Ids(names, last)[j] > 0 ==> Ids(names, last)[i] < Ids(names, last)[j]
    decreases |names|
  {
    if names != [] {
      var id := TransactionId(names[0], last);
      var next := if id == 0 then last else id;
      IdsAbove(names[1..], next);
      var ids, rest := Ids(names, last), Ids(names[1..], next);
      assert forall i :: 0 < i < |names| ==> ids[i] == rest[i - 1] && names[i] == names[1..][i - 1];
    }
  }

  /** From one connection to the next no two commands that wait have the same id, and a connection starts with 1. */
  lemma IdsDiffer(names: seq<Data>, last: nat)
    requires Text("connect") !in names
    ensures var ids := Ids([Text("connect")] + names, last);
      && |ids| == |names| + 1 && ids[0] == 1
      && forall i, j :: 0 <= i < j < |ids| && ids[i] > 0 && ids[j] > 0 ==> ids[i] != ids[j]
  {
    var all := [Text("connect")] + names;
    assert all[1..] == names;
    IdsAbove(names, 1);
  }
}
