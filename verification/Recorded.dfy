/** What the file holds after a run, in terms of the messages themselves. */
module Recorded {
  import opened Bytes
  import opened Chunk
  import opened Tracks
  import Flv

  // ---------- Aggregates are their parts ----------

  /** Part `k` of an aggregate as a message of its own: at its own time, or with `fix` as far behind the aggregate as it is behind
      the first part. Parts that are neither audio nor video say nothing. */
  function PartAsMedia(e: Event, fix: bool, k: nat): Event
    requires e.Parts? && k < |e.parts|
  {
    var p := e.parts[k];
    if p.typeId == 8 || p.typeId == 9 then Event.Media(p.typeId, if fix then e.ts + (p.ts - e.parts[0].ts) else p.ts, p.data) else Silent
  }

  /** An aggregate is accepted if its first part has its time, or with `fix`. */
  predicate IsAccepted(e: Event, fix: bool) {
    e.Parts? ==> fix || e.parts == [] || e.parts[0].ts == e.ts
  }

  function AsMedia(e: Event, fix: bool): seq<Event> {
    if !e.Parts? then [e]
    else if IsAccepted(e, fix) then seq(|e.parts|, k requires 0 <= k < |e.parts| => PartAsMedia(e, fix, k))
    else []
  }

  /** The messages of a run, aggregates taken apart. */
  function Apart(es: seq<(Event, bool)>): seq<Event> {
    if es == [] then [] else Apart(es[..|es| - 1]) + AsMedia(es[|es| - 1].0, es[|es| - 1].1)
  }

  // ---------- What is kept ----------

  predicate IsMedia(e: Event) {
    e.Media? && (e.kind == 8 || e.kind == 9)
  }

  /** An audio or video message that is not before zero and later than every earlier one of its kind. */
  predicate IsLater(ms: seq<Event>, i: nat)
    requires i < |ms|
  {
    IsMedia(ms[i]) && ms[i].ts >= 0
    && forall j :: 0 <= j < i && IsMedia(ms[j]) && ms[j].kind == ms[i].kind ==> ms[j].ts < ms[i].ts
  }

  /** The tags of the messages kept: kind, time and data as they came; other tags as they are. */
  function Kept(ms: seq<Event>): seq<Flv.Tag> {
    if ms == [] then []
    else
      var i := |ms| - 1;
      Kept(ms[..i])
      + if IsLater(ms, i) then [Flv.Tag(ms[i].kind, ms[i].ts, ms[i].data)] else if ms[i].Plain? then [ms[i].tag] else []
  }

  predicate AreSingle(ms: seq<Event>) {
    forall e :: e in ms ==> !e.Parts? && (e.Plain? ==> !IsTrack(e.tag.kind))
  }

  function OffersOf(ms: seq<Event>): seq<Flv.Tag> {
    if ms == [] then [] else OffersOf(ms[..|ms| - 1]) + Offers(ms[|ms| - 1], false)
  }

  /** `m` is the time of the latest message of a kind, or -1. */
  predicate IsLatest(ms: seq<Event>, kind: byte, m: int) {
    && m >= -1
    && (forall j :: 0 <= j < |ms| && IsMedia(ms[j]) && ms[j].kind == kind ==> ms[j].ts <= m)
    && (m >= 0 ==> exists j :: 0 <= j < |ms| && IsMedia(ms[j]) && ms[j].kind == kind && ms[j].ts == m)
  }

  lemma LatestStep(ms: seq<Event>, kind: byte, m: int)
    requires ms != [] && IsLatest(ms[..|ms| - 1], kind, m)
    ensures var e := ms[|ms| - 1]; IsLatest(ms, kind, if IsMedia(e) && e.kind == kind && e.ts > m then e.ts else m)
  {
    var front := ms[..|ms| - 1];
    assert forall j :: 0 <= j < |front| ==> front[j] == ms[j];
  }

  lemma LaterIsLatest(ms: seq<Event>, m: int)
    requires ms != [] && IsMedia(ms[|ms| - 1]) && IsLatest(ms[..|ms| - 1], ms[|ms| - 1].kind, m)
    ensures IsLater(ms, |ms| - 1) <==> ms[|ms| - 1].ts > m
  {
    var front := ms[..|ms| - 1];
    assert forall j :: 0 <= j < |front| ==> front[j] == ms[j];
  }

  lemma OneOfferedTo(s: State, e: Event)
    requires !e.Parts?
    ensures IsMedia(e) ==> AllOffered(s, Offers(e, false)) == Offered(s, Flv.Tag(e.kind, e.ts, e.data))
    ensures e.Plain? ==> AllOffered(s, Offers(e, false)) == Offered(s, e.tag)
    ensures !IsMedia(e) && !e.Plain? ==> AllOffered(s, Offers(e, false)) == s
  {
    var ts := Offers(e, false);
    if ts != [] {
      assert ts[..0] == [] && AllOffered(s, []) == s;
    }
  }

  lemma {:induction false} KeptByWriter(ms: seq<Event>)
    requires AreSingle(ms)
    ensures var s := AllOffered(Fresh, OffersOf(ms));
      s.tags == Kept(ms) && IsLatest(ms, 8, s.audio) && IsLatest(ms, 9, s.video)
  {
    if ms != [] {
      var front, e := ms[..|ms| - 1], ms[|ms| - 1];
      var s := AllOffered(Fresh, OffersOf(front));
      KeptByWriter(front);
      OfferedAppend(Fresh, OffersOf(front), Offers(e, false));
      OneOfferedTo(s, e);
      LatestStep(ms, 8, s.audio);
      LatestStep(ms, 9, s.video);
      if IsMedia(e) { LaterIsLatest(ms, if e.kind == 8 then s.audio else s.video); }
    }
  }

  // ---------- Whole runs ----------

  lemma {:induction false} OffersAppend(a: seq<Event>, b: seq<Event>)
    ensures OffersOf(a + b) == OffersOf(a) + OffersOf(b)
    decreases |b|
  {
    if b == [] {
      assert a + b == a;
    } else {
      OffersAppend(a, b[..|b| - 1]);
      assert (a + b)[..|a + b| - 1] == a + b[..|b| - 1];
      assert OffersOf(a) + OffersOf(b[..|b| - 1]) + Offers(b[|b| - 1], false) == OffersOf(a) + OffersOf(b);
    }
  }

  lemma {:induction false} PartsOffered(e: Event, fix: bool, ms: seq<Event>, n: nat)
    requires e.Parts? && n <= |e.parts| && |ms| == n && forall k: nat :: k < n ==> ms[k] == PartAsMedia(e, fix, k)
    ensures OffersOf(ms) == PartOffers(e.parts[..n], if fix && e.parts != [] then e.ts - e.parts[0].ts else 0)
    decreases n
  {
    if n > 0 {
      PartsOffered(e, fix, ms[..n - 1], n - 1);
      assert e.parts[..n][..n - 1] == e.parts[..n - 1];
    }
  }

  lemma AsMediaOffers(e: Event, fix: bool)
    ensures OffersOf(AsMedia(e, fix)) == Offers(e, fix)
  {
    if e.Parts? {
      if IsAccepted(e, fix) {
        PartsOffered(e, fix, AsMedia(e, fix), |e.parts|);
        assert e.parts[..|e.parts|] == e.parts;
      }
    } else {
      assert [e][..0] == [] && OffersOf([]) == [] && [] + Offers(e, false) == Offers(e, fix);
    }
  }

  lemma {:induction false} ApartOffers(es: seq<(Event, bool)>)
    ensures OffersOf(Apart(es)) == RunOffers(es)
  {
    if es != [] {
      ApartOffers(es[..|es| - 1]);
      OffersAppend(Apart(es[..|es| - 1]), AsMedia(es[|es| - 1].0, es[|es| - 1].1));
      AsMediaOffers(es[|es| - 1].0, es[|es| - 1].1);
    }
  }

  /** Tags written as they are belong to no track. */
  predicate PlainIsNoTrack(es: seq<(Event, bool)>) {
    forall i :: 0 <= i < |es| && es[i].0.Plain? ==> !IsTrack(es[i].0.tag.kind)
  }

  lemma {:induction false} ApartSingle(es: seq<(Event, bool)>)
    requires PlainIsNoTrack(es)
    ensures AreSingle(Apart(es))
  {
    if es != [] {
      ApartSingle(es[..|es| - 1]);
    }
  }

  /** From a fresh file on, whatever messages come in whatever order, the file holds exactly the audio and video messages, and parts of
      accepted aggregates, that are not before zero and later than every earlier one of their kind, each with its kind, time and data. */
  lemma FileHolds(es: seq<(Event, bool)>)
    requires PlainIsNoTrack(es)
    ensures Run(Fresh, es).tags == Kept(Apart(es))
  {
    RunIsOffers(es);
    ApartOffers(es);
    ApartSingle(es);
    KeptByWriter(Apart(es));
  }
}
