/** What the messages of a connection mean to the recording: how each one ends, what is sent in answer, and how one message
    follows another along the bytes received. */
module Session {
  import opened Options
  import opened Bytes
  import opened AmfValues
  import opened Chunk
  import opened ChunkStream
  import opened Commands
  import opened Tracks
  import Amf0
  import Amf0Codec
  import Flv

  /** How handling a message ended. `Incomplete` asks the caller to reconnect, `Stopped` is the end of the process; the last
      three only end the wait for something. */
  datatype Outcome =
    | Handled | Completed | Incomplete | Error(kind: ErrKind) | Stopped
    | Answered(data: Option<Value>) | Paused | Expired

  /** What a caller may be waiting for while it receives: the end of the recording, the answer to a command, a pause, or the
      end of a test after so many messages. */
  datatype Mode = ForEnd | ForAnswer(id: nat) | ForPause | ForTest(messages: nat)

  /** Go's conversions between int and float64, and of seconds to milliseconds. */
  datatype Floats = Floats(toInt: Float64 -> int, fromInt: int -> Float64, millis: Float64 -> int)

  // ---------- Looking something up ----------

  /** `objs.Find` with one key. A list answers with its first element that does, and with itself if none does; what is neither
      map nor list answers with itself. */
  function Find(v: Value, key: Data): Option<Value>
    decreases v, if v.List? then |v.items| + 1 else 0
  {
    match v
    case Obj(m) => if key in m then Some(m[key]) else None
    case List(items) => FindFrom(v, 0, key)
    case _ => Some(v)
  }

  function FindFrom(v: Value, i: nat, key: Data): Option<Value>
    requires v.List? && i <= |v.items|
    decreases v, |v.items| - i
  {
    if i == |v.items| then Some(v)
    else
      var r := Find(v.items[i], key);
      if r.Some? then r else FindFrom(v, i + 1, key)
  }

  function FindString(v: Value, key: Data): Option<Data> {
    match Find(v, key)
    case Some(Str(s)) => Some(s)
    case _ => None
  }

  function FindNumber(v: Value, key: Data): Option<Float64> {
    match Find(v, key)
    case Some(Num(b)) => Some(b)
    case _ => None
  }

  // ---------- How a message ends ----------

  function StatusCode(data: Value): Option<Data> {
    FindString(data, Text("code"))
  }

  function StatusOutcome(data: Value, ts: int, duration: int): Outcome {
    match StatusCode(data)
    case None => Error(Other)
    case Some(code) =>
      if code == Text("NetStream.Play.Complete") then if ts + 1000 > duration then Completed else Incomplete
      else if code == Text("NetStream.Play.Failed") then Completed
      else Handled
  }

  function IsPauseNotice(data: Value): bool {
    StatusCode(data) == Some(Text("NetStream.Pause.Notify"))
  }

  function ErrorNames(): set<Data> {
    {Text("_error"), Text("close")}
  }

  /** A command with a result or an argument ends the connection if it is not well-formed or names a failure; a status without
      an argument ends the process. */
  function CommandOutcome(values: seq<Value>, ts: int, duration: int): Outcome {
    if |values| < 3 then Handled
    else if !values[0].Str? || !values[1].Num? || values[0].s in ErrorNames() then Error(Other)
    else if values[0].s == Text("onStatus") then if |values| == 3 then Stopped else StatusOutcome(values[3], ts, duration)
    else Handled
  }

  lemma StatusIsNoError()
    ensures Text("onStatus") !in ErrorNames()
  {
    assert |Text("onStatus")| == 8 && |Text("_error")| == 6 && |Text("close")| == 5;
  }

  /** A command ends the process exactly if it is a status without an argument. */
  lemma StoppedByStatus(values: seq<Value>, ts: int, duration: int)
    ensures CommandOutcome(values, ts, duration) == Stopped
      <==> |values| == 3 && values[0] == Str(Text("onStatus")) && values[1].Num?
  {
    StatusIsNoError();
  }

  /** A peer can send one, with any transaction id and any value: it is read as such. */
  lemma StatusReceived(id: Float64, v: Value, ecma: bool, body: Data, csz: nat, csid: nat, streamId: int, info: InfoTable, rest: Data)
    requires csz > 0 && 2 <= csid <= 65599 && |body| < 0x100_0000
    requires Amf0.Clean(v) && Amf0.IsEncodingAll([Str(Text("onStatus")), Num(id), v], ecma, body)
    ensures var p := DecodedOne(CommandBytes(csz, csid, streamId, body) + rest, csz, info);
      && p.Ok? && p.rest == rest && p.value.typeId == 20
      && p.value.payload == Values([Str(Text("onStatus")), Num(id), Amf0.Norm(v)])
  {
    var cmd := [Str(Text("onStatus")), Num(id), v];
    assert cmd[1..] == [Num(id), v] && cmd[1..][1..] == [v] && cmd[1..][1..][1..] == [];
    CleanThree(cmd);
    CommandReceived(csz, csid, streamId, cmd, ecma, body, info, rest);
  }

  lemma CleanOne(v: Value)
    requires Amf0.Clean(v)
    ensures Amf0.CleanAll([v]) && Amf0.NormAll([v]) == [Amf0.Norm(v)]
  {
    assert [v][1..] == [] && Amf0.NormAll([]) == [];
  }

  lemma CleanThree(cmd: seq<Value>)
    requires |cmd| == 3 && cmd[0].Str? && cmd[1].Num? && Amf0.Clean(cmd[2])
    ensures Amf0.CleanAll(cmd) && Amf0.NormAll(cmd) == [cmd[0], cmd[1], Amf0.Norm(cmd[2])]
  {
    assert cmd[1..][1..] == [cmd[2]];
    CleanOne(cmd[2]);
    assert Amf0.CleanAll(cmd[1..]) && Amf0.NormAll(cmd[1..]) == [cmd[1], Amf0.Norm(cmd[2])];
  }

  predicate IsPlayStatus(values: seq<Value>) {
    |values| >= 2 && values[0] == Str(Text("onPlayStatus"))
  }

  predicate IsMetaData(values: seq<Value>) {
    |values| >= 2 && values[0] == Str(Text("onMetaData"))
  }

  function MetaData(values: seq<Value>): seq<Value>
    requires IsMetaData(values)
  {
    [Str(Text("onMetaData")), values[1]]
  }

  ghost predicate IsDataOutcome(values: seq<Value>, ts: int, duration: int, o: Outcome) {
    if |values| < 2 then o == Handled
    else if !values[0].Str? then o == Error(Other)
    else if IsPlayStatus(values) then o == StatusOutcome(values[1], ts, duration)
    else o == Handled || (o == Stopped && IsMetaData(values) && values[1].Obj? && !Amf0Codec.KnownAll(MetaData(values)))
  }

  predicate IsPing(p: Payload) {
    p.Control? && |p.numbers| >= 2 && p.numbers[0] == 6
  }

  predicate IsBufferEmpty(p: Payload) {
    p.Control? && |p.numbers| >= 1 && p.numbers[0] == 31
  }

  /** `ts` is the time of the message in the recording. */
  ghost predicate IsOutcomeOf(m: Received, ts: int, fix: bool, duration: int, recorded: bool, o: Outcome) {
    match m.payload
    case Parts(parts) => o == if IsRefused(Tracks.Parts(ts, parts), fix) then Error(Other) else Handled
    case Values(values) =>
      if m.typeId == 18 then IsDataOutcome(values, ts, duration, o) else o == CommandOutcome(values, ts, duration)
    case _ => o == if recorded && IsBufferEmpty(m.payload) then Incomplete else Handled
  }

  /** What `recvChunk` is asked to look out for. */
  datatype Wanted = Wanted(id: int, pause: bool)

  function WantedBy(mode: Mode): Wanted {
    Wanted(if mode.ForAnswer? then mode.id else -1, mode.ForPause?)
  }

  /** What a message may tell a caller that waits: the answer to its command, or that the stream has paused. */
  datatype Signal = Signal(answered: bool, data: Option<Value>, paused: bool)

  const NoSignal := Signal(false, None, false)

  function CommandSignal(values: seq<Value>, want: Wanted, floats: Floats): Signal {
    if |values| < 3 || !values[0].Str? || !values[1].Num? then NoSignal
    else
      var id := floats.toInt(values[1].bits);
      var found := id > 0 && id == want.id;
      Signal(found, if found && |values| >= 4 then Some(values[3]) else None,
             want.pause && values[0].s !in ErrorNames() && values[0].s == Text("onStatus") && |values| >= 4 && IsPauseNotice(values[3]))
  }

  function SignalOf(m: Received, want: Wanted, floats: Floats): Signal {
    if !m.payload.Values? then NoSignal
    else if m.typeId == 18 then NoSignal.(paused := want.pause && IsPlayStatus(m.payload.values) && IsPauseNotice(m.payload.values[1]))
    else CommandSignal(m.payload.values, want, floats)
  }

  /** How `wait` goes on after its message number `n`. */
  function Ends(mode: Mode, o: Outcome, sig: Signal, n: nat): Outcome {
    if o != Handled then o
    else match mode
         case ForEnd => Handled
         case ForAnswer(_) => if sig.answered then Answered(sig.data) else Handled
         case ForPause => if sig.paused then Paused else Handled
         case ForTest(k) => if n >= k then Expired else Handled
  }

  // ---------- What a message is to the file, and what is sent in answer ----------

  /** Metadata is written as a tag of its own, holding one of its encodings; an encoding error leaves the tag empty. */
  ghost predicate IsMetaTag(e: Event, values: seq<Value>, ts: int)
    requires IsMetaData(values)
  {
    && e.Plain? && e.tag.kind == 18 && e.tag.ts == ts
    && (e.tag.data != [] <==> Amf0Codec.EncodableAll(MetaData(values)))
    && (e.tag.data != [] ==> Amf0.IsEncodingAll(MetaData(values), true, e.tag.data))
  }

  ghost predicate IsDataEvent(values: seq<Value>, ts: int, o: Outcome, e: Event) {
    if IsMetaData(values) && values[1].Obj? && o != Stopped then IsMetaTag(e, values, ts) else e == Silent
  }

  ghost predicate IsEventOf(m: Received, ts: int, o: Outcome, e: Event) {
    match m.payload
    case Media(data) => e == Tracks.Media(m.typeId, ts, data)
    case Parts(parts) => e == Tracks.Parts(ts, parts)
    case Values(values) => if m.typeId == 18 then IsDataEvent(values, ts, o, e) else e == Silent
    case _ => e == Silent
  }

  /** Control messages only: a ping is answered, and a recorded stream that has run dry is paused. */
  function Reply(p: Payload, recorded: bool, csz: nat): seq<Data>
    requires csz > 0
  {
    if IsPing(p) then [PongBytes(p.numbers[1])]
    else if recorded && IsBufferEmpty(p) then [PauseRawBytes(csz)]
    else []
  }

  /** The acknowledgement that counting may send, if it does. */
  function AckReply(a: Ack, size: nat, window: nat): seq<Data> {
    if Reaches(a, size, window) then [AckBytes(a.total + size)] else []
  }

  /** The totals told to the peer while these sizes are counted. */
  function Told(a: Ack, steps: seq<(nat, nat)>): seq<nat> {
    if steps == [] then []
    else
      var front, x := steps[..|steps| - 1], steps[|steps| - 1];
      var now := CountedAll(a, front);
      Told(a, front) + if Reaches(now, x.0, x.1) then [now.total + x.0] else []
  }

  /** The total taken for acknowledged is the one last told, and all the bytes counted since are those not acknowledged. */
  lemma {:induction false} ToldIsAcked(a: Ack, steps: seq<(nat, nat)>)
    ensures var told := Told(a, steps); CountedAll(a, steps).acked == if told == [] then a.acked else told[|told| - 1]
  {
    if steps != [] { ToldIsAcked(a, steps[..|steps| - 1]); }
  }

  // ---------- From message to message ----------

  /** What does not change while messages are received. */
  datatype Setup = Setup(startTime: nat, fix: bool, floats: Floats, transactionId: nat)

  /** All that handling a message may change: settings, counters, the recording and what was sent. */
  datatype Memory = Memory(csz: nat, window: nat, duration: int, recorded: bool, ack: Ack, media: State, sent: seq<Data>)

  /** Commands are sent in chunks of the size of a new connection. */
  const SendSize := 128

  function DurationAfter(m: Received, duration: int, floats: Floats): int {
    if m.typeId == 18 && m.payload.Values? then DurationIn(m.payload.values, duration, floats) else duration
  }

  function DurationIn(values: seq<Value>, duration: int, floats: Floats): int {
    if IsMetaData(values) then
      match FindNumber(values[1], Text("duration"))
      case Some(b) => floats.millis(b)
      case None => duration
    else duration
  }

  predicate RecordedAfter(p: Payload, recorded: bool) {
    recorded || (p.Control? && |p.numbers| >= 1 && p.numbers[0] == 4)
  }

  function SizeAfter(m: Received, typeId: byte, n: nat): nat {
    if m.typeId == typeId && m.payload.Size? then m.payload.n else n
  }

  /** The memory after a message that was the event `e` to the file; its bytes are counted before. */
  function After(a: Memory, m: Received, e: Event, s: Setup): Memory {
    Memory(SizeAfter(m, 1, a.csz), SizeAfter(m, 5, a.window), DurationAfter(m, a.duration, s.floats), RecordedAfter(m.payload, a.recorded),
           a.ack, Tracks.Handled(a.media, e, s.fix), a.sent + Reply(m.payload, a.recorded, SendSize))
  }

  function CountedIn(a: Memory, size: nat): Memory {
    a.(ack := Counted(a.ack, size, a.window), sent := a.sent + AckReply(a.ack, size, a.window))
  }

  /** How the message may end and what it may be to the file, from the memory before it. */
  ghost predicate Allows(s: Setup, a: Memory, m: Received, o: Outcome, e: Event) {
    var ts := m.ts + s.startTime;
    IsOutcomeOf(m, ts, s.fix, a.duration, a.recorded, o) && IsEventOf(m, ts, o, e)
  }

  /** The message is handled: it ends so, tells the caller `sig`, is `e` to the file and leaves `b` of `a`. */
  ghost predicate Handles(s: Setup, a: Memory, m: Received, want: Wanted, o: Outcome, sig: Signal, e: Event, b: Memory) {
    Allows(s, a, m, o, e) && sig == SignalOf(m, want, s.floats) && b == After(a, m, e, s)
  }

  // Each kind of message in turn.

  lemma HandlesMedia(s: Setup, a: Memory, m: Received, want: Wanted, e: Event)
    requires m.payload.Media? && e == Tracks.Media(m.typeId, m.ts + s.startTime, m.payload.data)
    ensures Handles(s, a, m, want, Handled, NoSignal, e, a.(media := Tracks.Handled(a.media, e, s.fix)))
  {
    assert a.sent + [] == a.sent;
  }

  lemma HandlesParts(s: Setup, a: Memory, m: Received, want: Wanted, o: Outcome, e: Event)
    requires m.payload.Parts? && e == Tracks.Parts(m.ts + s.startTime, m.payload.parts)
    requires o == if IsRefused(e, s.fix) then Error(Other) else Handled
    ensures Handles(s, a, m, want, o, NoSignal, e, a.(media := Tracks.Handled(a.media, e, s.fix)))
  {
    assert a.sent + [] == a.sent;
  }

  lemma HandlesData(s: Setup, a: Memory, m: Received, want: Wanted, o: Outcome, paused: bool, e: Event)
    requires m.payload.Values? && m.typeId == 18
    requires IsDataOutcome(m.payload.values, m.ts + s.startTime, a.duration, o) && IsDataEvent(m.payload.values, m.ts + s.startTime, o, e)
    requires paused == (want.pause && IsPlayStatus(m.payload.values) && IsPauseNotice(m.payload.values[1]))
    ensures Handles(s, a, m, want, o, Signal(false, None, paused), e,
                    a.(media := Tracks.Handled(a.media, e, s.fix), duration := DurationIn(m.payload.values, a.duration, s.floats)))
  {
    assert a.sent + [] == a.sent;
  }

  lemma HandlesCommand(s: Setup, a: Memory, m: Received, want: Wanted)
    requires m.payload.Values? && m.typeId != 18
    ensures Handles(s, a, m, want, CommandOutcome(m.payload.values, m.ts + s.startTime, a.duration),
                    CommandSignal(m.payload.values, want, s.floats), Silent, a)
  {
    assert a.sent + [] == a.sent;
  }

  lemma HandlesControl(s: Setup, a: Memory, m: Received, want: Wanted)
    requires !m.payload.Media? && !m.payload.Parts? && !m.payload.Values?
    ensures Handles(s, a, m, want, if a.recorded && IsBufferEmpty(m.payload) then Incomplete else Handled, NoSignal, Silent,
                    a.(csz := SizeAfter(m, 1, a.csz), window := SizeAfter(m, 5, a.window),
                       recorded := RecordedAfter(m.payload, a.recorded), sent := a.sent + Reply(m.payload, a.recorded, SendSize)))
  {
  }

  /** Where the receiver stands: the bytes still to come, the chunk streams and all else it knows, after `count` messages. */
  datatype Place = At(rest: Data, info: InfoTable, memory: Memory, count: nat)

  /** A message received, the window it was counted under, what it was to the file, how it ended, and how the wait went on. */
  datatype Entry = Entry(m: Received, window: nat, event: Event, raw: Outcome, end: Outcome)

  /** At `a` comes the message of `x`, is handled as `x` says, and after it the receiver is at `b`. */
  ghost predicate Comes(s: Setup, mode: Mode, a: Place, x: Entry, b: Place) {
    && DecodedOne(a.rest, a.memory.csz, a.info) == Ok(x.m, b.rest)
    && Follows(s, mode, a, x, b) && b.info == InfoAfter(a.rest, a.info)
  }

  ghost predicate Follows(s: Setup, mode: Mode, a: Place, x: Entry, b: Place) {
    && x.window == a.memory.window && b.count == a.count + 1
    && Allows(s, a.memory, x.m, x.raw, x.event)
    && b.memory == After(CountedIn(a.memory, x.m.size), x.m, x.event, s)
    && x.end == Ends(mode, x.raw, SignalOf(x.m, WantedBy(mode), s.floats), b.count)
  }

  ghost predicate Linked<P(!new), X(!new)>(link: (P, X, P) -> bool, ps: seq<P>, xs: seq<X>, i: nat)
    requires i < |xs| < |ps|
  {
    link(ps[i], xs[i], ps[i + 1])
  }

  ghost predicate Chain<P(!new), X(!new)>(link: (P, X, P) -> bool, ps: seq<P>, xs: seq<X>) {
    |ps| == |xs| + 1 && forall i: nat {:trigger Linked(link, ps, xs, i)} :: i < |xs| ==> Linked(link, ps, xs, i)
  }

  lemma ChainMore<P(!new), X(!new)>(link: (P, X, P) -> bool, ps: seq<P>, xs: seq<X>, x: X, p: P)
    requires Chain(link, ps, xs) && link(ps[|xs|], x, p)
    ensures Chain(link, ps + [p], xs + [x])
  {
    forall i: nat | i < |xs + [x]| ensures Linked(link, ps + [p], xs + [x], i) {
      if i < |xs| { assert Linked(link, ps, xs, i); }
    }
  }

  ghost function Link(s: Setup, mode: Mode): (Place, Entry, Place) -> bool {
    (a, x, b) => Comes(s, mode, a, x, b)
  }

  /** All but the last message leave the receiver waiting for more. */
  predicate AllWaiting(log: seq<Entry>) {
    forall i :: 0 <= i < |log| - 1 ==> log[i].end == Handled
  }

  /** The messages come one after the other, from place to place. */
  ghost predicate IsStream(s: Setup, mode: Mode, places: seq<Place>, log: seq<Entry>) {
    Chain(Link(s, mode), places, log) && AllWaiting(log)
  }

  /** The last message, too, leaves the receiver waiting. */
  predicate Waits(log: seq<Entry>) {
    log != [] ==> log[|log| - 1].end == Handled
  }

  function Unread(p: Parse<Received>): Outcome
    requires !p.Ok?
  {
    match p
    case Err(k) => if k == Malformed then Incomplete else Error(k)
    case Fatal => Stopped
  }

  /** What comes at `a` cannot be read, and ends the wait as `o`. */
  predicate Unreadable(a: Place, o: Outcome) {
    var p := DecodedOne(a.rest, a.memory.csz, a.info);
    !p.Ok? && o == Unread(p)
  }

  /** The wait ends as its last message says; if that leaves it waiting for more, the bytes behind it cannot be read. */
  predicate EndsAs(places: seq<Place>, log: seq<Entry>, o: Outcome)
    requires |places| == |log| + 1
  {
    if Waits(log) then Unreadable(places[|log|], o) else o == log[|log| - 1].end
  }

  lemma WaitingMore(log: seq<Entry>, x: Entry)
    requires AllWaiting(log) && Waits(log)
    ensures AllWaiting(log + [x]) && (Waits(log + [x]) <==> x.end == Handled)
  {
  }

  lemma StreamMore(s: Setup, mode: Mode, places: seq<Place>, log: seq<Entry>, x: Entry, b: Place)
    requires IsStream(s, mode, places, log) && Waits(log) && Comes(s, mode, places[|log|], x, b)
    ensures IsStream(s, mode, places + [b], log + [x]) && (Waits(log + [x]) <==> x.end == Handled)
    ensures x.end != Handled ==> EndsAs(places + [b], log + [x], x.end)
  {
    ChainMore(Link(s, mode), places, log, x, b);
    WaitingMore(log, x);
  }

  lemma EndsUnread(places: seq<Place>, log: seq<Entry>, o: Outcome)
    requires |places| == |log| + 1 && Waits(log) && Unreadable(places[|log|], o)
    ensures EndsAs(places, log, o) && o != Handled
  {
  }

  // ---------- What a whole stream amounts to ----------

  function Events(log: seq<Entry>, fix: bool): (es: seq<(Event, bool)>)
    ensures |es| == |log|
  {
    seq(|log|, i requires 0 <= i < |log| => (log[i].event, fix))
  }

  function Steps(log: seq<Entry>): (steps: seq<(nat, nat)>)
    ensures |steps| == |log|
  {
    seq(|log|, i requires 0 <= i < |log| => (log[i].m.size, log[i].window))
  }

  lemma AfterFollows(s: Setup, mode: Mode, a: Place, x: Entry, b: Place)
    requires Follows(s, mode, a, x, b)
    ensures b.memory.media == Tracks.Handled(a.memory.media, x.event, s.fix)
    ensures b.memory.ack == Counted(a.memory.ack, x.m.size, x.window)
    ensures b.memory.sent == a.memory.sent + (AckReply(a.memory.ack, x.m.size, x.window) + Reply(x.m.payload, a.memory.recorded, SendSize))
  {
  }

  lemma LinkFollows(s: Setup, mode: Mode, a: Place, x: Entry, b: Place)
    requires Link(s, mode)(a, x, b)
    ensures Follows(s, mode, a, x, b)
  {
  }

  lemma ChainAt<P(!new), X(!new)>(link: (P, X, P) -> bool, ps: seq<P>, xs: seq<X>, i: nat)
    requires Chain(link, ps, xs) && i < |xs|
    ensures link(ps[i], xs[i], ps[i + 1])
  {
    assert Linked(link, ps, xs, i);
  }

  lemma StreamStep(s: Setup, mode: Mode, places: seq<Place>, log: seq<Entry>, k: nat)
    requires IsStream(s, mode, places, log) && k < |log|
    ensures var a, b, x := places[k].memory, places[k + 1].memory, log[k];
      && b.media == Tracks.Handled(a.media, x.event, s.fix)
      && b.ack == Counted(a.ack, x.m.size, x.window)
      && b.sent == a.sent + (AckReply(a.ack, x.m.size, x.window) + Reply(x.m.payload, a.recorded, SendSize))
      && places[k + 1].count == places[k].count + 1
  {
    ChainAt(Link(s, mode), places, log, k);
    LinkFollows(s, mode, places[k], log[k], places[k + 1]);
    AfterFollows(s, mode, places[k], log[k], places[k + 1]);
  }

  /** From `first` the first `k` events and sizes lead to `m`. */
  predicate RunsTo(first: Memory, m: Memory, es: seq<(Event, bool)>, steps: seq<(nat, nat)>, k: nat)
    requires k <= |es| == |steps|
  {
    m.media == Run(first.media, es[..k]) && m.ack == CountedAll(first.ack, steps[..k])
  }

  lemma RunsNowhere(first: Memory, es: seq<(Event, bool)>, steps: seq<(nat, nat)>)
    requires |es| == |steps|
    ensures RunsTo(first, first, es, steps, 0)
  {
  }

  lemma StepRuns(first: Memory, a: Memory, b: Memory, es: seq<(Event, bool)>, steps: seq<(nat, nat)>, k: nat)
    requires k < |es| == |steps| && RunsTo(first, a, es, steps, k)
    requires b.media == Tracks.Handled(a.media, es[k].0, es[k].1) && b.ack == Counted(a.ack, steps[k].0, steps[k].1)
    ensures RunsTo(first, b, es, steps, k + 1)
  {
    assert es[..k + 1][..k] == es[..k] && steps[..k + 1][..k] == steps[..k];
  }

  lemma StreamRunsOn(s: Setup, mode: Mode, places: seq<Place>, log: seq<Entry>, first: Memory, k: nat)
    requires IsStream(s, mode, places, log) && k < |log|
    requires RunsTo(first, places[k].memory, Events(log, s.fix), Steps(log), k)
    ensures RunsTo(first, places[k + 1].memory, Events(log, s.fix), Steps(log), k + 1)
    ensures places[k + 1].count == places[k].count + 1
  {
    StreamStep(s, mode, places, log, k);
    StepRuns(first, places[k].memory, places[k + 1].memory, Events(log, s.fix), Steps(log), k);
  }

  /** Whatever messages come, the recording is what the run of their events leaves, and the counters are those of their sizes,
      each under the window then in force. */
  lemma {:induction false} StreamRuns(s: Setup, mode: Mode, places: seq<Place>, log: seq<Entry>, n: nat)
    requires IsStream(s, mode, places, log) && n <= |log|
    ensures RunsTo(places[0].memory, places[n].memory, Events(log, s.fix), Steps(log), n)
    ensures places[n].count == places[0].count + n
    decreases n
  {
    if n > 0 {
      StreamRuns(s, mode, places, log, n - 1);
      StreamRunsOn(s, mode, places, log, places[0].memory, n - 1);
    } else {
      RunsNowhere(places[0].memory, Events(log, s.fix), Steps(log));
    }
  }

  /** Every message is answered as the counters and the state of the stream call for, in the order of arrival. */
  lemma StreamReplies(s: Setup, mode: Mode, places: seq<Place>, log: seq<Entry>, n: nat)
    requires IsStream(s, mode, places, log) && n < |log|
    ensures places[n + 1].memory.sent ==
      places[n].memory.sent
      + (AckReply(CountedAll(places[0].memory.ack, Steps(log)[..n]), log[n].m.size, log[n].window)
         + Reply(log[n].m.payload, places[n].memory.recorded, SendSize))
  {
    StreamRuns(s, mode, places, log, n);
    StreamStep(s, mode, places, log, n);
  }

  // ---------- The acknowledgements among what was sent ----------

  /** On the low chunk streams this side sends on, the type of a message stands behind one byte of basic header, its time and length. */
  predicate IsAck(wire: Data) {
    |wire| > 7 && wire[7] == 3
  }

  function Acks(sent: seq<Data>): seq<Data> {
    if sent == [] then []
    else Acks(sent[..|sent| - 1]) + if IsAck(sent[|sent| - 1]) then [sent[|sent| - 1]] else []
  }

  lemma {:induction false} AcksAppend(a: seq<Data>, b: seq<Data>)
    ensures Acks(a + b) == Acks(a) + Acks(b)
    decreases |b|
  {
    if b == [] {
      assert a + b == a;
    } else {
      AcksAppend(a, b[..|b| - 1]);
      assert (a + b)[..|a + b| - 1] == a + b[..|b| - 1];
    }
  }

  lemma AcksOne(d: Data)
    ensures Acks([d]) == if IsAck(d) then [d] else []
  {
    assert [d][..0] == [];
  }

  lemma TypeOfControl(typeId: byte, body: Data)
    ensures |ControlBytes(typeId, body)| > 7 && ControlBytes(typeId, body)[7] == typeId
  {
  }

  lemma TypeOfPause(csz: nat)
    requires csz > 0
    ensures !IsAck(PauseRawBytes(csz))
  {
  }

  lemma ReplyAcks(a: Ack, size: nat, window: nat, p: Payload, recorded: bool)
    ensures Acks(AckReply(a, size, window) + Reply(p, recorded, SendSize)) == AckReply(a, size, window)
  {
    AcksAppend(AckReply(a, size, window), Reply(p, recorded, SendSize));
    TypeOfControl(3, BE32(a.total + size));
    AcksOne(AckBytes(a.total + size));
    TypeOfPause(SendSize);
    AcksOne(PauseRawBytes(SendSize));
    if IsPing(p) {
      TypeOfControl(4, BE16(7) + BE32(p.numbers[1]));
      AcksOne(PongBytes(p.numbers[1]));
    }
  }

  function AckMessages(totals: seq<nat>): (wires: seq<Data>)
    ensures |wires| == |totals|
  {
    seq(|totals|, i requires 0 <= i < |totals| => AckBytes(totals[i]))
  }

  lemma ToldMore(a: Ack, steps: seq<(nat, nat)>, k: nat)
    requires k < |steps|
    ensures AckMessages(Told(a, steps[..k + 1]))
         == AckMessages(Told(a, steps[..k])) + AckReply(CountedAll(a, steps[..k]), steps[k].0, steps[k].1)
  {
    assert steps[..k + 1][..k] == steps[..k];
  }

  /** Over any stream the acknowledgements on the wire are those of the totals told, in order, and there are no others. */
  lemma {:induction false} StreamAcks(s: Setup, mode: Mode, places: seq<Place>, log: seq<Entry>, n: nat)
    requires IsStream(s, mode, places, log) && n <= |log|
    ensures Acks(places[n].memory.sent) == Acks(places[0].memory.sent) + AckMessages(Told(places[0].memory.ack, Steps(log)[..n]))
    decreases n
  {
    var a := places[0].memory.ack;
    if n > 0 {
      var k := n - 1;
      StreamAcks(s, mode, places, log, k);
      StreamReplies(s, mode, places, log, k);
      ToldMore(a, Steps(log), k);
      var now := CountedAll(a, Steps(log)[..k]);
      AcksOf(places[k].memory.sent, now, log[k].m.size, log[k].window, log[k].m.payload, places[k].memory.recorded);
      Together(Acks(places[0].memory.sent), AckMessages(Told(a, Steps(log)[..k])), AckReply(now, log[k].m.size, log[k].window));
    } else {
      assert Told(a, Steps(log)[..0]) == [];
    }
  }

  lemma Together(a: seq<Data>, b: seq<Data>, c: seq<Data>)
    ensures a + b + c == a + (b + c)
  {
  }

  lemma AcksOf(sent: seq<Data>, a: Ack, size: nat, window: nat, p: Payload, recorded: bool)
    ensures Acks(sent + (AckReply(a, size, window) + Reply(p, recorded, SendSize))) == Acks(sent) + AckReply(a, size, window)
  {
    AcksAppend(sent, AckReply(a, size, window) + Reply(p, recorded, SendSize));
    ReplyAcks(a, size, window, p, recorded);
  }
}
