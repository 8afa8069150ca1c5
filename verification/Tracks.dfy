/** What a run of received media messages leaves in the file, and how received bytes are acknowledged. */
module Tracks {
  import opened Bytes
  import opened Flv
  import opened Chunk

  /** A received message: media, an aggregate of media, a tag written as it is, or nothing for the file. */
  datatype Event =
    | Media(kind: byte, ts: int, data: Data)
    | Parts(ts: int, parts: seq<SubMsg>)
    | Plain(tag: Tag)
    | Silent

  predicate HasTime(e: Event) {
    e.Media? || e.Parts?
  }

  /** `timestamp` is the position of the recording, `audio` and `video` those of its tracks. */
  datatype State = State(timestamp: int, audio: int, video: int, tags: seq<Tag>)

  const Fresh := State(0, -1, -1, [])

  predicate IsTrack(kind: byte) {
    kind == Flv.AUDIO || kind == Flv.VIDEO
  }

  /** The tags a message offers to the writer. An aggregate keeps its own timestamps, the first of which must be
      that of the message, or, with `fix`, is moved to where the message is. */
  function Offers(e: Event, fix: bool): seq<Tag> {
    match e
    case Media(kind, ts, data) => if IsTrack(kind) then [Tag(kind, ts, data)] else []
    case Plain(tag) => [tag]
    case Silent => []
    case Parts(ts, parts) =>
      if IsRefused(e, fix) then []
      else PartOffers(parts, if fix && parts != [] then ts - parts[0].ts else 0)
  }

  predicate IsRefused(e: Event, fix: bool) {
    e.Parts? && !fix && e.parts != [] && e.parts[0].ts != e.ts
  }

  function PartOffers(parts: seq<SubMsg>, shift: int): seq<Tag> {
    if parts == [] then []
    else
      var p := parts[|parts| - 1];
      PartOffers(parts[..|parts| - 1], shift)
      + if IsTrack(p.typeId) then [Tag(p.typeId, p.ts + shift, p.data)] else []
  }

  /** The writer takes a tag of a track only if it is later than the track. */
  function Offered(s: State, t: Tag): State {
    if t.kind == Flv.AUDIO then
      if t.ts > s.audio then s.(audio := t.ts, tags := s.tags + [t]) else s
    else if t.kind == Flv.VIDEO then
      if t.ts > s.video then s.(video := t.ts, tags := s.tags + [t]) else s
    else s.(tags := s.tags + [t])
  }

  function AllOffered(s: State, ts: seq<Tag>): State {
    if ts == [] then s else Offered(AllOffered(s, ts[..|ts| - 1]), ts[|ts| - 1])
  }

  /** Only media moves the position. */
  function Moved(s: State, e: Event): State {
    if HasTime(e) && e.ts > s.timestamp then s.(timestamp := e.ts) else s
  }

  function Handled(s: State, e: Event, fix: bool): State {
    AllOffered(Moved(s, e), Offers(e, fix))
  }

  function Run(s: State, es: seq<(Event, bool)>): State {
    if es == [] then s else Handled(Run(s, es[..|es| - 1]), es[|es| - 1].0, es[|es| - 1].1)
  }

  function RunOffers(es: seq<(Event, bool)>): seq<Tag> {
    if es == [] then [] else RunOffers(es[..|es| - 1]) + Offers(es[|es| - 1].0, es[|es| - 1].1)
  }

  lemma {:induction false} OfferedAppend(s: State, a: seq<Tag>, b: seq<Tag>)
    ensures AllOffered(AllOffered(s, a), b) == AllOffered(s, a + b)
  {
    if b == [] {
      assert a + b == a;
    } else {
      OfferedAppend(s, a, b[..|b| - 1]);
      assert (a + b)[..|a + b| - 1] == a + b[..|b| - 1];
    }
  }

  lemma {:induction false} OfferedIgnoresTime(s: State, n: int, ts: seq<Tag>)
    ensures AllOffered(s.(timestamp := n), ts) == AllOffered(s, ts).(timestamp := n)
  {
    if ts != [] {
      OfferedIgnoresTime(s, n, ts[..|ts| - 1]);
    }
  }

  /** The same but for the position. */
  predicate SameFile(a: State, b: State) {
    a.audio == b.audio && a.video == b.video && a.tags == b.tags
  }

  lemma SameAfter(a: State, b: State, e: Event, fix: bool)
    requires SameFile(a, b)
    ensures SameFile(Handled(a, e, fix), AllOffered(b, Offers(e, fix)))
  {
    OfferedIgnoresTime(b, Moved(a, e).timestamp, Offers(e, fix));
    assert Moved(a, e) == b.(timestamp := Moved(a, e).timestamp);
  }

  /** Up to the position, a run is the writer taking in all tags offered, one after the other. */
  lemma {:induction false} RunIsOffers(es: seq<(Event, bool)>)
    ensures SameFile(Run(Fresh, es), AllOffered(Fresh, RunOffers(es)))
  {
    if es != [] {
      var front, e, fix := es[..|es| - 1], es[|es| - 1].0, es[|es| - 1].1;
      RunIsOffers(front);
      SameAfter(Run(Fresh, front), AllOffered(Fresh, RunOffers(front)), e, fix);
      OfferedAppend(Fresh, RunOffers(front), Offers(e, fix));
    }
  }

  // ---------- Running maxima ----------

  /** Tag `i` of a track is later than all tags of that track offered before it, and not negative. */
  predicate IsRecord(ts: seq<Tag>, i: nat)
    requires i < |ts|
  {
    IsTrack(ts[i].kind) ==>
      ts[i].ts >= 0 && forall j :: 0 <= j < i && ts[j].kind == ts[i].kind ==> ts[j].ts < ts[i].ts
  }

  function Records(ts: seq<Tag>): seq<Tag> {
    if ts == [] then []
    else Records(ts[..|ts| - 1]) + if IsRecord(ts, |ts| - 1) then [ts[|ts| - 1]] else []
  }

  /** `m` is the latest timestamp offered to a track, or -1 if there is no later one. */
  predicate IsPeak(ts: seq<Tag>, kind: byte, m: int) {
    && m >= -1
    && (forall j :: 0 <= j < |ts| && ts[j].kind == kind ==> ts[j].ts <= m)
    && (m >= 0 ==> exists j :: 0 <= j < |ts| && ts[j].kind == kind && ts[j].ts == m)
  }

  lemma PeakStep(ts: seq<Tag>, kind: byte, m: int)
    requires ts != [] && IsPeak(ts[..|ts| - 1], kind, m)
    ensures var t := ts[|ts| - 1];
      IsPeak(ts, kind, if t.kind == kind && t.ts > m then t.ts else m)
  {
    var front, t := ts[..|ts| - 1], ts[|ts| - 1];
    assert forall j :: 0 <= j < |front| ==> front[j] == ts[j];
  }

  lemma RecordIsPeak(ts: seq<Tag>, m: int)
    requires ts != [] && IsTrack(ts[|ts| - 1].kind) && IsPeak(ts[..|ts| - 1], ts[|ts| - 1].kind, m)
    ensures IsRecord(ts, |ts| - 1) <==> ts[|ts| - 1].ts > m
  {
    var front, n := ts[..|ts| - 1], |ts| - 1;
    assert forall j :: 0 <= j < n ==> front[j] == ts[j];
  }

  /** Whatever is offered in whatever order, the file holds exactly the strict running maxima of each track,
      in the order of their arrival, and the writer stands at the last of them. */
  lemma {:induction false} WrittenAreRecords(ts: seq<Tag>)
    ensures var s := AllOffered(Fresh, ts);
      s.tags == Records(ts) && IsPeak(ts, Flv.AUDIO, s.audio) && IsPeak(ts, Flv.VIDEO, s.video)
  {
    if ts != [] {
      var s := AllOffered(Fresh, ts[..|ts| - 1]);
      WrittenAreRecords(ts[..|ts| - 1]);
      PeakStep(ts, Flv.AUDIO, s.audio);
      PeakStep(ts, Flv.VIDEO, s.video);
      if IsTrack(ts[|ts| - 1].kind) {
        RecordIsPeak(ts, if ts[|ts| - 1].kind == Flv.AUDIO then s.audio else s.video);
      }
    }
  }

  /** The tags in the file after any run of messages. */
  lemma RunWritesRecords(es: seq<(Event, bool)>)
    ensures Run(Fresh, es).tags == Records(RunOffers(es))
  {
    RunIsOffers(es);
    WrittenAreRecords(RunOffers(es));
  }

  /** On a track the tags come in increasing order, from zero on, and `m` is the last of them. */
  predicate InOrder(tags: seq<Tag>, kind: byte, m: int) {
    && Increasing(tags, kind) && LastTs(tags, kind) == m >= -1
    && (forall t :: t in tags && t.kind == kind ==> 0 <= t.ts <= m)
  }

  lemma {:induction false} WrittenIncrease(ts: seq<Tag>)
    ensures var s := AllOffered(Fresh, ts);
      InOrder(s.tags, Flv.AUDIO, s.audio) && InOrder(s.tags, Flv.VIDEO, s.video)
  {
    if ts != [] {
      var s, t := AllOffered(Fresh, ts[..|ts| - 1]), ts[|ts| - 1];
      WrittenIncrease(ts[..|ts| - 1]);
      OfferedInOrder(s, t);
    }
  }

  lemma OfferedInOrder(s: State, t: Tag)
    requires InOrder(s.tags, Flv.AUDIO, s.audio) && InOrder(s.tags, Flv.VIDEO, s.video)
    ensures InOrder(Offered(s, t).tags, Flv.AUDIO, Offered(s, t).audio)
    ensures InOrder(Offered(s, t).tags, Flv.VIDEO, Offered(s, t).video)
  {
    if t.kind == Flv.AUDIO ==> t.ts > s.audio {
      IncreaseStep(s.tags, t, Flv.AUDIO, s.audio);
    }
    if t.kind == Flv.VIDEO ==> t.ts > s.video {
      IncreaseStep(s.tags, t, Flv.VIDEO, s.video);
    }
  }

  lemma IncreaseStep(tags: seq<Tag>, t: Tag, kind: byte, m: int)
    requires InOrder(tags, kind, m)
    requires t.kind == kind ==> t.ts > m
    ensures InOrder(tags + [t], kind, if t.kind == kind then t.ts else m)
  {
    assert (tags + [t])[..|tags|] == tags;
  }

  /** The recording position is the running maximum of the timestamps of its messages. */
  lemma {:induction false} PositionIsMax(es: seq<(Event, bool)>)
    ensures var p := Run(Fresh, es).timestamp;
      && p >= 0
      && (forall i :: 0 <= i < |es| && HasTime(es[i].0) ==> es[i].0.ts <= p)
      && (p > 0 ==> exists i :: 0 <= i < |es| && HasTime(es[i].0) && es[i].0.ts == p)
  {
    if es != [] {
      var front, e := es[..|es| - 1], es[|es| - 1].0;
      PositionIsMax(front);
      assert forall i :: 0 <= i < |front| ==> front[i] == es[i];
      OfferedIgnoresTime(Moved(Run(Fresh, front), e), Moved(Run(Fresh, front), e).timestamp, Offers(e, es[|es| - 1].1));
      assert es[|es| - 1].0 == e;
    }
  }

  // ---------- Acknowledgement ----------

  /** `acked` is the total the peer was last told. */
  datatype Ack = Ack(total: nat, count: nat, acked: nat)

  /** With `size` more bytes half the window is unacknowledged. */
  predicate Reaches(a: Ack, size: nat, window: nat) {
    a.count + size >= window / 2
  }

  function Counted(a: Ack, size: nat, window: nat): Ack {
    if Reaches(a, size, window) then Ack(a.total + size, 0, a.total + size)
    else Ack(a.total + size, a.count + size, a.acked)
  }

  function CountedAll(a: Ack, steps: seq<(nat, nat)>): Ack {
    if steps == [] then a else Counted(CountedAll(a, steps[..|steps| - 1]), steps[|steps| - 1].0, steps[|steps| - 1].1)
  }

  function SizeSum(steps: seq<(nat, nat)>): nat {
    if steps == [] then 0 else SizeSum(steps[..|steps| - 1]) + steps[|steps| - 1].0
  }

  /** In every run, with the window changing at any time: nothing received goes uncounted, the unacknowledged rest is what
      came since the last acknowledgement, and it stays below half the window. */
  lemma {:induction false} AckConserves(steps: seq<(nat, nat)>)
    ensures var a := CountedAll(Ack(0, 0, 0), steps);
      && a.total == SizeSum(steps) && a.total == a.acked + a.count
      && (steps != [] ==> var half := steps[|steps| - 1].1 / 2; a.count < if half > 1 then half else 1)
      && exists k :: 0 <= k <= |steps| && a.acked == SizeSum(steps[..k])
  {
    if steps != [] {
      var n := |steps| - 1;
      AckConserves(steps[..n]);
      assert steps[..|steps|] == steps;
      var before := CountedAll(Ack(0, 0, 0), steps[..n]);
      var k :| 0 <= k <= n && before.acked == SizeSum(steps[..n][..k]);
      assert steps[..n][..k] == steps[..k];
    } else {
      assert SizeSum(steps[..0]) == 0;
    }
  }

  /** Reopened now, the file gives a resume point no later than where recording stands. */
  predicate ResumesInTime(s: State) {
    var m := Scanned(FileBytes(s.tags), |FileBytes(s.tags)| - 4, Marks(-1, -1, false, false));
    Resume(m.audio, m.video) <= Resume(s.audio, s.video)
  }

  /** Timestamps fit 32 bits, and so do tag sizes. */
  predicate InRange(tags: seq<Tag>) {
    Flv.Timed(tags) && forall t :: t in tags ==> Scannable(t)
  }

  lemma ResumeInOrder(s: State)
    requires InOrder(s.tags, Flv.AUDIO, s.audio) && InOrder(s.tags, Flv.VIDEO, s.video) && InRange(s.tags)
    ensures ResumesInTime(s)
  {
    ResumeNotLater(s.tags);
  }

  lemma SameResume(a: State, b: State)
    requires SameFile(a, b) && ResumesInTime(b)
    ensures ResumesInTime(a)
  {
  }

  /** After any run the file can be reopened without skipping anything. */
  lemma ResumeAfterRun(es: seq<(Event, bool)>)
    requires InRange(Run(Fresh, es).tags)
    ensures ResumesInTime(Run(Fresh, es))
  {
    var s := AllOffered(Fresh, RunOffers(es));
    RunIsOffers(es);
    WrittenIncrease(RunOffers(es));
    ResumeInOrder(s);
    SameResume(Run(Fresh, es), s);
  }

  // ---------- Reopened files ----------

  /** The state in which a reopened file is written on. */
  function Reopened(tags: seq<Tag>): State {
    var m := Scanned(FileBytes(tags), |FileBytes(tags)| - 4, Marks(-1, -1, false, false));
    State(0, m.audio, m.video, tags)
  }

  function TrackAt(s: State, kind: byte): int {
    if kind == Flv.AUDIO then s.audio else s.video
  }

  lemma {:induction false} OffersKeepOrder(s: State, ts: seq<Tag>, kind: byte)
    requires IsTrack(kind) && InOrder(s.tags, kind, TrackAt(s, kind))
    ensures InOrder(AllOffered(s, ts).tags, kind, TrackAt(AllOffered(s, ts), kind))
  {
    if ts != [] {
      var front, t := AllOffered(s, ts[..|ts| - 1]), ts[|ts| - 1];
      OffersKeepOrder(s, ts[..|ts| - 1], kind);
      if t.kind == kind ==> t.ts > TrackAt(front, kind) { IncreaseStep(front.tags, t, kind, TrackAt(front, kind)); }
    }
  }

  /** Whatever is offered to a reopened file, the track goes on increasing. */
  ghost predicate GoesOn(tags: seq<Tag>, kind: byte) {
    forall ts :: Increasing(AllOffered(Reopened(tags), ts).tags, kind)
  }

  /** A track that stands below its latest tag takes that tag again. */
  lemma LatestAgain(s: State, kind: byte) returns (ts: seq<Tag>)
    requires IsTrack(kind) && LastTs(s.tags, kind) >= 0 && TrackAt(s, kind) < LastTs(s.tags, kind)
    ensures !Increasing(AllOffered(s, ts).tags, kind)
  {
    var t := Tag(kind, LastTs(s.tags, kind), []);
    ts := [t];
    assert ts[..0] == [] && AllOffered(s, []) == s && AllOffered(s, ts) == Offered(s, t);
    var all := s.tags + [t];
    assert AllOffered(s, ts).tags == all;
    var i := LastIsTag(s.tags, kind);
    assert all[i] == s.tags[i] && all[i].ts == all[|s.tags|].ts && all[|s.tags|] == t;
  }

  lemma {:induction false} LastIsTag(tags: seq<Tag>, kind: byte) returns (i: nat)
    requires LastTs(tags, kind) >= 0
    ensures i < |tags| && tags[i].kind == kind && tags[i].ts == LastTs(tags, kind)
  {
    i := |tags| - 1;
    if tags[i].kind != kind { i := LastIsTag(tags[..i], kind); }
  }

  lemma ReopenedAt(tags: seq<Tag>) returns (n: nat)
    requires InRange(tags)
    ensures IsScanStart(tags, n)
    ensures Reopened(tags).audio == FirstTs(tags[n..], Flv.AUDIO) && Reopened(tags).video == FirstTs(tags[n..], Flv.VIDEO)
  {
    n := ReopenMarks(tags);
  }

  lemma FirstFrom(tags: seq<Tag>, kind: byte)
    requires Flv.Timed(tags)
    ensures FirstTs(tags, kind) >= -1
  {
    FirstIsTag(tags, kind);
  }

  /** A track that increases goes on doing so after a reopen, whatever comes, exactly if its earliest tag inside the shortest
      suffix that holds both tracks is also its latest one. Otherwise what was recorded last may be recorded once more. */
  lemma GoesOnExactly(tags: seq<Tag>, kind: byte) returns (n: nat)
    requires IsTrack(kind) && InRange(tags) && InOrder(tags, kind, LastTs(tags, kind))
    ensures IsScanStart(tags, n)
    ensures GoesOn(tags, kind) <==> FirstTs(tags[n..], kind) == LastTs(tags, kind)
  {
    n := ReopenedAt(tags);
    FirstNotLater(tags, n, kind);
    if FirstTs(tags[n..], kind) == LastTs(tags, kind) {
      forall ts ensures Increasing(AllOffered(Reopened(tags), ts).tags, kind) {
        OffersKeepOrder(Reopened(tags), ts, kind);
      }
    } else {
      FirstFrom(tags[n..], kind);
      var ts := LatestAgain(Reopened(tags), kind);
    }
  }

  /** When the peer is told: with the first message that brings what it was not told to half the window then in force, and not before.
      It is told all that was received so far. */
  lemma {:induction false} ToldAtHalf(steps: seq<(nat, nat)>, k: nat)
    requires k < |steps|
    ensures var before, after := CountedAll(Ack(0, 0, 0), steps[..k]).acked, CountedAll(Ack(0, 0, 0), steps[..k + 1]).acked;
      after == if SizeSum(steps[..k + 1]) - before >= steps[k].1 / 2 then SizeSum(steps[..k + 1]) else before
  {
    AckConserves(steps[..k]);
    assert steps[..k + 1][..k] == steps[..k];
  }
}
