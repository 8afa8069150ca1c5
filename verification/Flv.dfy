/** FLV files: the tag writer, and the backward scan that finds where a recording left off. */
module Flv {
  import opened Bytes
  import Chunk

  datatype Tag = Tag(kind: byte, ts: int, data: Data)

  const AUDIO: byte := 8
  const VIDEO: byte := 9

  /** "FLV", version 1, audio and video, data at 9, and the size before the first tag. */
  const Header: Data := [70, 76, 86, 1, 5, 0, 0, 0, 9, 0, 0, 0, 0]

  function TagHead(t: Tag): (d: Data)
    ensures |d| == 11
  {
    var ts := BE32(t.ts);
    [t.kind] + BE24(|t.data|) + ts[1..4] + [ts[0]] + [0, 0, 0]
  }

  function TagBytes(t: Tag): (d: Data)
    ensures |d| == 15 + |t.data|
  {
    TagHead(t) + t.data + BE32(11 + |t.data|)
  }

  /** `start` and then tag after tag. */
  function Appended(start: Data, tags: seq<Tag>): (d: Data)
    ensures |start| <= |d|
  {
    if tags == [] then start else Appended(start, tags[..|tags| - 1]) + TagBytes(tags[|tags| - 1])
  }

  function TagsBytes(tags: seq<Tag>): Data {
    Appended([], tags)
  }

  /** What `writePacket` leaves behind when it starts from a fresh file. */
  function FileBytes(tags: seq<Tag>): Data {
    Appended(Header, tags)
  }

  // ---------- The aggregate decoder reads tags ----------

  predicate Fits(t: Tag) {
    |t.data| < 0x100_0000 && 0 <= t.ts < 0x1_0000_0000
  }

  function SubOf(t: Tag): Chunk.SubMsg
    requires Fits(t)
  {
    Chunk.SubMsg(t.kind, t.ts, t.data)
  }

  /** The extended byte of a timestamp and its three others. */
  lemma TimeBytes(ts: int)
    ensures 0x100_0000 * (BE32(ts)[0] as int) + FromBE24(BE32(ts)[1..4]) == ts % 0x1_0000_0000
  {
    assert FromBE32(BE32(ts)) == ts % 0x1_0000_0000;
  }

  lemma HeadParts(k: Data, l: Data, low: Data, high: Data, z: Data, rest: Data)
    requires |k| == 1 && |l| == 3 && |low| == 3 && |high| == 1 && |z| == 3
    ensures Chunk.DecodedSubHead(k + l + low + high + z + rest)
      == Ok(Chunk.SubHead(k[0], FromBE24(l), 0x100_0000 * (high[0] as int) + FromBE24(low)), rest)
  {
    Assoc4(k, l, low, high + (z + rest));
    Assoc3(k + l + low + high, z, rest);
    Assoc3(k + l + low, high, z + rest);
    TakeAppend(k, l + (low + (high + (z + rest))));
    TakeAppend(l, low + (high + (z + rest)));
    TakeAppend(low, high + (z + rest));
    TakeAppend(high, z + rest);
    TakeAppend(z, rest);
  }

  lemma PartsDecoded(head: Data, h: Chunk.SubHead, data: Data, size: Data, rest: Data)
    requires Chunk.DecodedSubHead(head + (data + (size + rest))) == Ok(h, data + (size + rest))
    requires h.length == |data| && |size| == 4
    ensures Chunk.DecodedSub(head + data + size + rest) == Ok(Chunk.SubMsg(h.typeId, h.ts, data), rest)
  {
    Assoc4(head, data, size, rest);
    TakeAppend(data, size + rest);
    TakeAppend(size, rest);
  }

  lemma HeadDecoded(t: Tag, rest: Data)
    requires Fits(t)
    ensures Chunk.DecodedSubHead(TagHead(t) + rest) == Ok(Chunk.SubHead(t.kind, |t.data|, t.ts), rest)
  {
    HeadParts([t.kind], BE24(|t.data|), BE32(t.ts)[1..4], [BE32(t.ts)[0]], [0, 0, 0], rest);
    TimeBytes(t.ts);
    SmallMod(t.ts, 0x1_0000_0000);
    SmallMod(|t.data|, 0x100_0000);
  }

  lemma TagDecoded(t: Tag, rest: Data)
    requires Fits(t)
    ensures Chunk.DecodedSub(TagBytes(t) + rest) == Ok(SubOf(t), rest)
  {
    var size := BE32(11 + |t.data|);
    HeadDecoded(t, t.data + (size + rest));
    PartsDecoded(TagHead(t), Chunk.SubHead(t.kind, |t.data|, t.ts), t.data, size, rest);
  }

  function SubsOf(tags: seq<Tag>): (subs: seq<Chunk.SubMsg>)
    requires forall t :: t in tags ==> Fits(t)
    ensures |subs| == |tags| && forall i :: 0 <= i < |tags| ==> subs[i] == SubOf(tags[i])
  {
    if tags == [] then [] else SubsOf(tags[..|tags| - 1]) + [SubOf(tags[|tags| - 1])]
  }

  /** The writer and the aggregate decoder are inverse: the tags come back, and nothing is left over. */
  lemma {:induction false} TagsDecoded(tags: seq<Tag>)
    requires forall t :: t in tags ==> Fits(t)
    ensures Chunk.DecodedAggregate(TagsBytes(tags)) == Ok(SubsOf(tags), [])
  {
    TagsDecodedBefore(tags, []);
    assert TagsBytes(tags) + [] == TagsBytes(tags) && SubsOf(tags) + [] == SubsOf(tags);
  }

  lemma {:induction false} TagsDecodedBefore(tags: seq<Tag>, rest: Data)
    requires forall t :: t in tags ==> Fits(t)
    ensures Chunk.DecodedAggregate(TagsBytes(tags) + rest) == Prepended(SubsOf(tags), Chunk.DecodedAggregate(rest))
  {
    var tail := Chunk.DecodedAggregate(rest);
    if tags == [] {
      assert [] + rest == rest;
      PrependedStep([], [], tail);
    } else {
      var front, t := tags[..|tags| - 1], tags[|tags| - 1];
      TagsDecodedBefore(front, TagBytes(t) + rest);
      Assoc3(TagsBytes(front), TagBytes(t), rest);
      OneMoreTag(t, rest);
      PrependedStep(SubsOf(front), [SubOf(t)], tail);
    }
  }

  lemma OneMoreTag(t: Tag, rest: Data)
    requires Fits(t)
    ensures Chunk.DecodedAggregate(TagBytes(t) + rest) == Prepended([SubOf(t)], Chunk.DecodedAggregate(rest))
  {
    TagDecoded(t, rest);
  }

  // ---------- The backward scan ----------

  /** The timestamps found so far, and on which tracks. */
  datatype Marks = Marks(audio: int, video: int, audioFound: bool, videoFound: bool)

  function Marked(m: Marks, kind: byte, ts: int): Marks {
    if kind == AUDIO then m.(audio := ts, audioFound := true)
    else if kind == VIDEO then m.(video := ts, videoFound := true)
    else m
  }

  function TimeAt(head: Data): nat
    requires |head| == 11
  {
    0x100_0000 * (head[7] as int) + FromBE24(head[4..7])
  }

  /** One step back: the tag whose size stands at `p`, and where the size before it stands. */
  datatype Step = Stop | Back(kind: byte, ts: nat, prev: int)

  function StepAt(file: Data, p: nat): (s: Step)
    ensures s.Back? ==> s.prev < p
  {
    if p + 4 > |file| then Stop
    else
      var size := FromBE32(file[p..p + 4]);
      if size == 0 || p < size || p - size + 11 > |file| then Stop
      else
        var head := file[p - size..p - size + 11];
        Back(head[0], TimeAt(head), p - size - 4)
  }

  /** The scan of any file whatever, standing before the size field at `p`. It ends, as `p` gets smaller. */
  function Scanned(file: Data, p: nat, m: Marks): Marks
    decreases p
  {
    if m.audioFound && m.videoFound then m
    else match StepAt(file, p)
         case Stop => m
         case Back(kind, ts, prev) =>
           if prev < 0 then Marked(m, kind, ts) else Scanned(file, prev, Marked(m, kind, ts))
  }

  /** The same scan in terms of tags. */
  function ScannedTags(tags: seq<Tag>, m: Marks): Marks {
    if (m.audioFound && m.videoFound) || tags == [] then m
    else
      var t := tags[|tags| - 1];
      ScannedTags(tags[..|tags| - 1], Marked(m, t.kind, t.ts % 0x1_0000_0000))
  }

  predicate Scannable(t: Tag) {
    11 + |t.data| < 0x1_0000_0000
  }

  lemma TagSlices(before: Data, t: Tag, x: Data)
    requires |before| >= 13
    ensures var file, p := before + TagBytes(t) + x, |before| + |TagBytes(t)| - 4;
      file[p..p + 4] == BE32(11 + |t.data|) && file[|before|..|before| + 11] == TagHead(t)
  {
    var file, p := before + TagBytes(t) + x, |before| + |TagBytes(t)| - 4;
    assert file == before + TagHead(t) + t.data + BE32(11 + |t.data|) + x;
    assert file[p..p + 4] == BE32(11 + |t.data|);
    assert file[|before|..|before| + 11] == TagHead(t);
  }

  lemma HeadTime(t: Tag)
    ensures TimeAt(TagHead(t)) == t.ts % 0x1_0000_0000 && TagHead(t)[0] == t.kind
  {
    assert TagHead(t)[4..7] == BE32(t.ts)[1..4] && TagHead(t)[7] == BE32(t.ts)[0];
    TimeBytes(t.ts);
  }

  lemma StepBack(file: Data, before: Data, t: Tag, x: Data)
    requires Scannable(t) && |before| >= 13 && file == before + TagBytes(t) + x
    ensures StepAt(file, |before| + |TagBytes(t)| - 4) == Back(t.kind, t.ts % 0x1_0000_0000, |before| - 4)
  {
    TagSlices(before, t, x);
    HeadTime(t);
    SmallMod(11 + |t.data|, 0x1_0000_0000);
  }

  /** On a written file, whatever bytes `x` follow, the scan steps from tag to tag. */
  lemma {:induction false} ScanReadsTags(file: Data, tags: seq<Tag>, x: Data, m: Marks)
    requires forall t :: t in tags ==> Scannable(t)
    requires file == FileBytes(tags) + x
    ensures Scanned(file, |FileBytes(tags)| - 4, m) == ScannedTags(tags, m)
    decreases |tags|
  {
    if m.audioFound && m.videoFound {
    } else if tags == [] {
      ScanEnds(file, x, m);
    } else {
      var front, t := tags[..|tags| - 1], tags[|tags| - 1];
      LastTagBack(file, tags, x);
      ScanUnroll(file, |FileBytes(tags)| - 4, m);
      ScanReadsTags(file, front, TagBytes(t) + x, Marked(m, t.kind, t.ts % 0x1_0000_0000));
    }
  }

  lemma ScanUnroll(file: Data, p: nat, m: Marks)
    requires !(m.audioFound && m.videoFound) && StepAt(file, p).Back? && StepAt(file, p).prev >= 0
    ensures var s := StepAt(file, p);
      Scanned(file, p, m) == Scanned(file, s.prev, Marked(m, s.kind, s.ts))
  {
  }

  lemma LastTagBack(file: Data, tags: seq<Tag>, x: Data)
    requires tags != [] && file == FileBytes(tags) + x && Scannable(tags[|tags| - 1])
    ensures var front, t := tags[..|tags| - 1], tags[|tags| - 1];
      && |FileBytes(front)| >= 13 && file == FileBytes(front) + (TagBytes(t) + x)
      && StepAt(file, |FileBytes(tags)| - 4) == Back(t.kind, t.ts % 0x1_0000_0000, |FileBytes(front)| - 4)
  {
    var before, t := FileBytes(tags[..|tags| - 1]), tags[|tags| - 1];
    Assoc3(before, TagBytes(t), x);
    StepBack(file, before, t, x);
  }

  lemma ScanEnds(file: Data, x: Data, m: Marks)
    requires file == Header + x
    ensures Scanned(file, 9, m) == m
  {
    assert file[9..13] == [0, 0, 0, 0];
  }

  // ---------- What the scan finds ----------

  predicate Has(tags: seq<Tag>, kind: byte) {
    exists i :: 0 <= i < |tags| && tags[i].kind == kind
  }

  /** The timestamp of the earliest tag of a track, and of the latest. */
  function FirstTs(tags: seq<Tag>, kind: byte): int {
    if tags == [] then -1 else if tags[0].kind == kind then tags[0].ts else FirstTs(tags[1..], kind)
  }

  function LastTs(tags: seq<Tag>, kind: byte): int {
    if tags == [] then -1
    else if tags[|tags| - 1].kind == kind then tags[|tags| - 1].ts
    else LastTs(tags[..|tags| - 1], kind)
  }

  /** `tags[n..]` is the shortest suffix with both tracks, or the whole body if it has not both. */
  predicate IsScanStart(tags: seq<Tag>, n: nat) {
    && n <= |tags|
    && (n < |tags| ==> !(Has(tags[n + 1..], AUDIO) && Has(tags[n + 1..], VIDEO)))
    && (n > 0 ==> Has(tags[n..], AUDIO) && Has(tags[n..], VIDEO))
  }

  function MarksOf(tags: seq<Tag>): Marks {
    Marks(FirstTs(tags, AUDIO), FirstTs(tags, VIDEO), Has(tags, AUDIO), Has(tags, VIDEO))
  }

  lemma MarkOneMore(tags: seq<Tag>, k: nat)
    requires 0 < k <= |tags| && 0 <= tags[k - 1].ts < 0x1_0000_0000
    ensures Marked(MarksOf(tags[k..]), tags[k - 1].kind, tags[k - 1].ts % 0x1_0000_0000) == MarksOf(tags[k - 1..])
  {
    var t := tags[k - 1];
    assert tags[k - 1..] == [t] + tags[k..];
    assert ([t] + tags[k..])[1..] == tags[k..];
    HasCons(t, tags[k..], AUDIO);
    HasCons(t, tags[k..], VIDEO);
  }

  lemma HasCons(t: Tag, tags: seq<Tag>, kind: byte)
    ensures Has([t] + tags, kind) <==> t.kind == kind || Has(tags, kind)
  {
    if t.kind == kind {
      assert ([t] + tags)[0].kind == kind;
    }
    if i :| 0 <= i < |tags| && tags[i].kind == kind {
      assert ([t] + tags)[i + 1].kind == kind;
    }
  }

  predicate Timed(tags: seq<Tag>) {
    forall t :: t in tags ==> 0 <= t.ts < 0x1_0000_0000
  }

  lemma ScanOneMore(tags: seq<Tag>, k: nat)
    requires 0 < k <= |tags| && Timed(tags) && !(Has(tags[k..], AUDIO) && Has(tags[k..], VIDEO))
    ensures ScannedTags(tags[..k], MarksOf(tags[k..])) == ScannedTags(tags[..k - 1], MarksOf(tags[k - 1..]))
  {
    MarkOneMore(tags, k);
    assert tags[..k][..k - 1] == tags[..k - 1];
  }

  lemma {:induction false} ScanFrom(tags: seq<Tag>, k: nat) returns (n: nat)
    requires Timed(tags) && k <= |tags|
    requires k < |tags| ==> !(Has(tags[k + 1..], AUDIO) && Has(tags[k + 1..], VIDEO))
    ensures IsScanStart(tags, n) && ScannedTags(tags[..k], MarksOf(tags[k..])) == MarksOf(tags[n..])
    decreases k
  {
    n := k;
    if k > 0 && !(Has(tags[k..], AUDIO) && Has(tags[k..], VIDEO)) {
      ScanOneMore(tags, k);
      n := ScanFrom(tags, k - 1);
    }
  }

  /** After a reopen each track has the timestamp of its earliest tag inside the shortest suffix that holds both tracks. */
  lemma {:induction false} ReopenMarks(tags: seq<Tag>) returns (n: nat)
    requires Timed(tags) && forall t :: t in tags ==> Scannable(t)
    ensures IsScanStart(tags, n)
    ensures Scanned(FileBytes(tags), |FileBytes(tags)| - 4, Marks(-1, -1, false, false)) == MarksOf(tags[n..])
  {
    ScanReadsTags(FileBytes(tags), tags, [], Marks(-1, -1, false, false));
    assert FileBytes(tags) + [] == FileBytes(tags);
    n := ScanFrom(tags, |tags|);
    assert tags[..|tags|] == tags && MarksOf(tags[|tags|..]) == Marks(-1, -1, false, false);
  }

  function Resume(audio: int, video: int): int {
    var min := if audio > video then video else audio;
    if min < 0 then 0 else min
  }

  predicate Increasing(tags: seq<Tag>, kind: byte) {
    forall i, j :: 0 <= i < j < |tags| && tags[i].kind == kind && tags[j].kind == kind ==> tags[i].ts < tags[j].ts
  }

  lemma {:induction false} FirstIsTag(tags: seq<Tag>, kind: byte)
    ensures FirstTs(tags, kind) == -1 || exists i :: 0 <= i < |tags| && tags[i].kind == kind && tags[i].ts == FirstTs(tags, kind)
  {
    if tags != [] && tags[0].kind != kind {
      FirstIsTag(tags[1..], kind);
      if i :| 0 <= i < |tags[1..]| && tags[1..][i].kind == kind && tags[1..][i].ts == FirstTs(tags[1..], kind) {
        assert tags[i + 1].kind == kind;
      }
    }
  }

  lemma {:induction false} LastIsMax(tags: seq<Tag>, kind: byte)
    requires Increasing(tags, kind)
    ensures forall i :: 0 <= i < |tags| && tags[i].kind == kind ==> tags[i].ts <= LastTs(tags, kind)
  {
    if tags != [] {
      LastIsMax(tags[..|tags| - 1], kind);
    }
  }

  /** If timestamps increased on both tracks, recording never resumes later than where it stopped. */
  lemma ResumeNotLater(tags: seq<Tag>)
    requires Timed(tags) && forall t :: t in tags ==> Scannable(t)
    requires Increasing(tags, AUDIO) && Increasing(tags, VIDEO)
    ensures var m := Scanned(FileBytes(tags), |FileBytes(tags)| - 4, Marks(-1, -1, false, false));
      Resume(m.audio, m.video) <= Resume(LastTs(tags, AUDIO), LastTs(tags, VIDEO))
  {
    var n := ReopenMarks(tags);
    FirstNotLater(tags, n, AUDIO);
    FirstNotLater(tags, n, VIDEO);
  }

  lemma FirstNotLater(tags: seq<Tag>, n: nat, kind: byte)
    requires Timed(tags) && n <= |tags| && Increasing(tags, kind)
    ensures FirstTs(tags[n..], kind) == -1 || FirstTs(tags[n..], kind) <= LastTs(tags, kind)
  {
    FirstIsTag(tags[n..], kind);
    LastIsMax(tags, kind);
    if i :| 0 <= i < |tags[n..]| && tags[n..][i].kind == kind && tags[n..][i].ts == FirstTs(tags[n..], kind) {
      assert tags[n + i].kind == kind;
    }
  }

  predicate NotLater(x: int, ts: int) {
    x <= if ts < 0 then 0 else ts
  }

  /** The resume point is the latest time at which no track has more than it was given: not later than either, and no later time is. */
  lemma ResumeIsLatest(audio: int, video: int)
    ensures var r := Resume(audio, video);
      && r >= 0 && NotLater(r, audio) && NotLater(r, video)
      && forall x :: NotLater(x, audio) && NotLater(x, video) ==> x <= r
  {
  }

  lemma {:induction false} LastOfNone(tags: seq<Tag>, kind: byte)
    ensures !Has(tags, kind) ==> FirstTs(tags, kind) == LastTs(tags, kind) == -1
    decreases |tags|
  {
    if tags != [] && !Has(tags, kind) {
      FirstIsTag(tags, kind);
      var front := tags[..|tags| - 1];
      assert forall i :: 0 <= i < |front| ==> front[i] == tags[i];
      LastOfNone(front, kind);
    }
  }

  lemma {:induction false} LastIsTimed(tags: seq<Tag>, kind: byte)
    requires Timed(tags) && Has(tags, kind)
    ensures LastTs(tags, kind) >= 0
    decreases |tags|
  {
    var n := |tags| - 1;
    if tags[n].kind != kind {
      var front := tags[..n];
      var i :| 0 <= i < |tags| && tags[i].kind == kind;
      assert front[i] == tags[i];
      LastIsTimed(front, kind);
    }
  }

  /** A file reopened resumes at a time that no track has passed: never negative, not later than the last tag of either track, and at
      the start if one of the tracks has none. */
  lemma ReopenedResume(tags: seq<Tag>)
    requires Timed(tags) && forall t :: t in tags ==> Scannable(t)
    requires Increasing(tags, AUDIO) && Increasing(tags, VIDEO)
    ensures var m := Scanned(FileBytes(tags), |FileBytes(tags)| - 4, Marks(-1, -1, false, false));
      var r := Resume(m.audio, m.video);
      && r >= 0
      && (Has(tags, AUDIO) ==> r <= LastTs(tags, AUDIO))
      && (Has(tags, VIDEO) ==> r <= LastTs(tags, VIDEO))
      && (!Has(tags, AUDIO) || !Has(tags, VIDEO) ==> r == 0)
  {
    var n := ReopenMarks(tags);
    ReopenedTrack(tags, n, AUDIO);
    ReopenedTrack(tags, n, VIDEO);
    ResumeIsLatest(FirstTs(tags[n..], AUDIO), FirstTs(tags[n..], VIDEO));
  }

  lemma ReopenedTrack(tags: seq<Tag>, n: nat, kind: byte)
    requires Timed(tags) && n <= |tags| && Increasing(tags, kind)
    ensures if Has(tags, kind) then FirstTs(tags[n..], kind) <= LastTs(tags, kind) && LastTs(tags, kind) >= 0
            else FirstTs(tags[n..], kind) == -1
  {
    FirstNotLater(tags, n, kind);
    if Has(tags, kind) {
      LastIsTimed(tags, kind);
    } else {
      assert forall i :: 0 <= i < |tags[n..]| ==> tags[n..][i] == tags[n + i];
      LastOfNone(tags[n..], kind);
    }
  }
}
