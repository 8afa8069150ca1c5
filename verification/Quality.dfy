/** The choice of a variant from a master playlist, and the handler that lowers the bandwidth limit after server errors. */
module Quality {
  import opened Options

  datatype Variant = Variant(bandwidth: nat, uri: string)

  /** Whether the loop drops the bandwidth `held` for `bw`. Nothing held counts as 0. */
  predicate Replaces(limit: int, held: nat, bw: nat) {
    if held == 0 then true
    else if limit > 0 then (limit < held && bw < held) || (held <= limit && bw <= limit && held < bw)
    else held < bw
  }

  /** Where the loop stands after the first `n` variants: the index of the one it holds. */
  function Held(variants: seq<Variant>, limit: int, n: nat): (i: nat)
    requires 0 < n <= |variants|
    ensures i < n
  {
    if n == 1 then 0
    else
      var i := Held(variants, limit, n - 1);
      if Replaces(limit, variants[i].bandwidth, variants[n - 1].bandwidth) then n - 1 else i
  }

  method Choose(variants: seq<Variant>, limit: int) returns (maxBw: nat, uri: string)
    requires variants != []
    ensures Variant(maxBw, uri) == variants[Held(variants, limit, |variants|)]
  {
    maxBw, uri := 0, "";
    for n := 0 to |variants|
      invariant n == 0 ==> maxBw == 0
      invariant n > 0 ==> Variant(maxBw, uri) == variants[Held(variants, limit, n)]
    {
      var bw := variants[n].bandwidth;
      if maxBw == 0 {
        maxBw, uri := bw, variants[n].uri;
      } else if limit > 0 {
        if limit < maxBw && bw < maxBw {
          maxBw, uri := bw, variants[n].uri;
        } else if maxBw <= limit && bw <= limit && maxBw < bw {
          maxBw, uri := bw, variants[n].uri;
        }
      } else {
        if maxBw < bw {
          maxBw, uri := bw, variants[n].uri;
        }
      }
    }
  }

  // ---------- What is chosen ----------

  predicate Fits(v: Variant, limit: int) {
    limit <= 0 || v.bandwidth <= limit
  }

  predicate SomeFits(variants: seq<Variant>, limit: int) {
    exists v :: v in variants && Fits(v, limit)
  }

  /** The largest bandwidth within the limit, or the smallest one if none is; a limit of 0 or less is none. */
  predicate IsChoice(variants: seq<Variant>, limit: int, v: Variant) {
    v in variants
    && (if SomeFits(variants, limit) then Fits(v, limit) && forall w :: w in variants && Fits(w, limit) ==> w.bandwidth <= v.bandwidth
        else forall w :: w in variants ==> v.bandwidth <= w.bandwidth)
  }

  predicate Positive(variants: seq<Variant>) {
    forall v :: v in variants ==> v.bandwidth > 0
  }

  predicate PositiveFits(variants: seq<Variant>, limit: int) {
    exists v :: v in variants && 0 < v.bandwidth <= limit
  }

  /** What the loop holds after some variants, the last of them being `v`: a held 0 counts as nothing held. */
  predicate IsHeld(variants: seq<Variant>, limit: int, v: Variant, h: Variant) {
    h in variants
    && if limit <= 0 then forall w :: w in variants ==> w.bandwidth <= h.bandwidth
       else if PositiveFits(variants, limit) then
         0 < h.bandwidth <= limit && forall w :: w in variants && w.bandwidth <= limit ==> w.bandwidth <= h.bandwidth
       else
         && (if v.bandwidth == 0 then h.bandwidth == 0 else h.bandwidth > limit)
         && (Positive(variants) ==> forall w :: w in variants ==> h.bandwidth <= w.bandwidth)
  }

  lemma HeldStep(front: seq<Variant>, limit: int, u: Variant, v: Variant, h: Variant)
    requires front != [] && u in front && IsHeld(front, limit, u, h) && (h.bandwidth == 0 && limit > 0 ==> u.bandwidth == 0)
    ensures IsHeld(front + [v], limit, v, if Replaces(limit, h.bandwidth, v.bandwidth) then v else h)
  {
    var all := front + [v];
    assert forall w :: w in all <==> w in front || w == v;
    assert Positive(all) <==> Positive(front) && v.bandwidth > 0;
    assert PositiveFits(all, limit) <==> PositiveFits(front, limit) || 0 < v.bandwidth <= limit;
  }

  lemma {:induction false} HeldRight(variants: seq<Variant>, limit: int, n: nat)
    requires 0 < n <= |variants|
    ensures IsHeld(variants[..n], limit, variants[n - 1], variants[Held(variants, limit, n)])
  {
    assert variants[..n] == variants[..n - 1] + [variants[n - 1]];
    if n > 1 {
      HeldRight(variants, limit, n - 1);
      HeldStep(variants[..n - 1], limit, variants[n - 2], variants[n - 1], variants[Held(variants, limit, n - 1)]);
    }
  }

  /** When the loop can be trusted: a limit of 0 or less, no listed bandwidth of 0, a positive one within the limit, or a
      bandwidth of 0 at the end of the list. */
  predicate Trusted(variants: seq<Variant>, limit: int)
    requires variants != []
  {
    limit <= 0 || Positive(variants) || PositiveFits(variants, limit) || variants[|variants| - 1].bandwidth == 0
  }

  /** On any list and under any limit the loop makes the choice that the recorder wants exactly in these cases. */
  lemma ChosenRight(variants: seq<Variant>, limit: int)
    requires variants != []
    ensures IsChoice(variants, limit, variants[Held(variants, limit, |variants|)]) <==> Trusted(variants, limit)
  {
    var n := |variants|;
    var h, last := variants[Held(variants, limit, n)], variants[n - 1];
    HeldRight(variants, limit, n);
    assert variants[..n] == variants;
    assert last in variants;
    if limit > 0 && !Positive(variants) {
      var z :| z in variants && z.bandwidth == 0;
      assert Fits(z, limit);
    }
  }

  /** The bandwidth wanted is unique, and among variants of equal bandwidth the first is kept if none is 0. */
  lemma ChoiceUnique(variants: seq<Variant>, limit: int, v: Variant, w: Variant)
    requires IsChoice(variants, limit, v) && IsChoice(variants, limit, w)
    ensures v.bandwidth == w.bandwidth
  {
  }

  lemma {:induction false} FirstOfEquals(variants: seq<Variant>, limit: int, n: nat)
    requires Positive(variants) && 0 < n <= |variants|
    ensures forall j :: 0 <= j < Held(variants, limit, n) ==> variants[j].bandwidth != variants[Held(variants, limit, n)].bandwidth
  {
    if n > 1 {
      FirstOfEquals(variants, limit, n - 1);
      HeldRight(variants, limit, n - 1);
      var front, h, v := variants[..n - 1], variants[Held(variants, limit, n - 1)], variants[n - 1];
      assert h in variants && v in variants;
      if Replaces(limit, h.bandwidth, v.bandwidth) {
        forall j | 0 <= j < n - 1 ensures variants[j].bandwidth != v.bandwidth {
          assert front[j] == variants[j] && front[j] in front;
        }
      }
    }
  }

  /** Elsewhere a listed 0 does harm: whatever stands between it and the last variant, the loop forgets it. */
  lemma ZeroForgotten(variants: seq<Variant>, limit: int, z: Variant)
    requires z in variants && z.bandwidth == 0 && limit > 0
    requires !PositiveFits(variants, limit) && variants[|variants| - 1].bandwidth != 0
    ensures variants[Held(variants, limit, |variants|)].bandwidth > limit
    ensures !IsChoice(variants, limit, variants[Held(variants, limit, |variants|)])
  {
    HeldRight(variants, limit, |variants|);
    assert variants[..|variants|] == variants;
    ChosenRight(variants, limit);
  }

  lemma ZeroBandwidth()
    ensures var variants := [Variant(0, "low"), Variant(500, "high")];
      !IsChoice(variants, 100, variants[Held(variants, 100, 2)])
  {
    var variants := [Variant(0, "low"), Variant(500, "high")];
    assert variants[0] in variants;
    ZeroForgotten(variants, 100, variants[0]);
  }

  // ---------- The ladder ----------

  datatype Limits = Limits(limitBw: int, seqNo500: int, cnt500: int, bw500: int)

  datatype Playing = Playing(bandwidth: int, seqNo: int)

  /** One server error for a media playlist: the third in a row at one place lowers the limit below the bandwidth in use,
      and fails if that has been done for this bandwidth already. */
  function MediaError(l: Limits, p: Playing): (r: (Limits, bool)) {
    if l.seqNo500 != p.seqNo then (l.(seqNo500 := p.seqNo, cnt500 := 1), false)
    else
      var m := l.(cnt500 := l.cnt500 + 1);
      if m.cnt500 < 3 then (m, false)
      else if m.bw500 == p.bandwidth then (m, true)
      else (m.(bw500 := p.bandwidth, limitBw := p.bandwidth - 1), false)
  }

  function MasterError(original: int): Limits {
    Limits(original, -1, 0, -1)
  }

  predicate Lowers(l: Limits, p: Playing) {
    l.seqNo500 == p.seqNo && l.cnt500 >= 2 && l.bw500 != p.bandwidth
  }

  class Ladder {
    const limitBwOrig: int
    var limitBw: int
    var seqNo500: int
    var cnt500: int
    var bw500: int

    constructor (limit: int)
      ensures Value() == Limits(limit, 0, 0, 0) && limitBwOrig == limit
    {
      limitBwOrig, limitBw, seqNo500, cnt500, bw500 := limit, limit, 0, 0, 0;
    }

    function Value(): Limits
      reads this
    {
      Limits(limitBw, seqNo500, cnt500, bw500)
    }

    /** The answer to a playlist request was 5xx. */
    method ServerError(media: bool, playing: Playing) returns (failed: bool)
      modifies this
      ensures media ==> (Value(), failed) == MediaError(old(Value()), playing)
      ensures !media ==> Value() == MasterError(limitBwOrig) && !failed
    {
      failed := false;
      if media {
        if seqNo500 == playing.seqNo {
          cnt500 := cnt500 + 1;
          if cnt500 >= 3 {
            if bw500 == playing.bandwidth {
              failed := true;
            } else {
              bw500 := playing.bandwidth;
              limitBw := playing.bandwidth - 1;
            }
          }
        } else {
          seqNo500 := playing.seqNo;
          cnt500 := 1;
        }
      } else {
        seqNo500, cnt500, bw500 := -1, 0, -1;
        limitBw := limitBwOrig;
      }
    }
  }

  /** What the playlist goroutine is doing: it starts at the master playlist, and ends with every server error. */
  datatype Phase = Ended | Master | Media

  /** `lowered` are the bandwidths at which the limit was lowered, `old` how many of them came before the latest error of the
      master playlist, and `masters` how many such errors there were. */
  datatype State = State(limits: Limits, playing: Playing, phase: Phase, lowered: seq<int>, failed: bool, before: nat, masters: nat)

  datatype Event = Start | Select | MediaOk(seqNo: nat) | Media5xx | Master5xx

  predicate Enabled(s: State, e: Event) {
    !s.failed
    && match e
       case Start => true
       case Select => s.phase != Ended
       case Master5xx => s.phase != Ended
       case _ => s.phase == Media
  }

  function Chosen(variants: seq<Variant>, limit: int): nat
    requires variants != []
  {
    variants[Held(variants, limit, |variants|)].bandwidth
  }

  function Next(s: State, e: Event, variants: seq<Variant>, original: int): State
    requires variants != []
  {
    match e
    case Start => s.(playing := Playing(0, 0), phase := Master)
    case Select => s.(playing := s.playing.(bandwidth := Chosen(variants, s.limits.limitBw)), phase := Media)
    case MediaOk(n) => s.(playing := s.playing.(seqNo := n))
    case Master5xx => s.(limits := MasterError(original), phase := Ended, before := |s.lowered|, masters := s.masters + 1)
    case Media5xx =>
      s.(limits := MediaError(s.limits, s.playing).0, failed := MediaError(s.limits, s.playing).1, phase := Ended,
         lowered := if Lowers(s.limits, s.playing) then s.lowered + [s.playing.bandwidth] else s.lowered)
  }

  function Play(s: State, events: seq<Event>, variants: seq<Variant>, original: int): Option<State>
    requires variants != []
    decreases |events|
  {
    if events == [] then Some(s)
    else if !Enabled(s, events[0]) then None
    else Play(Next(s, events[0], variants, original), events[1..], variants, original)
  }

  function Init(original: int): State {
    State(Limits(original, 0, 0, 0), Playing(0, 0), Ended, [], false, 0, 0)
  }

  function Run(events: seq<Event>, variants: seq<Variant>, original: int): Option<State>
    requires variants != []
  {
    Play(Init(original), events, variants, original)
  }

  // ---------- Lowerings decrease ----------

  predicate AllAboveOne(variants: seq<Variant>) {
    forall v :: v in variants ==> v.bandwidth > 1
  }

  function Bandwidths(variants: seq<Variant>): set<int> {
    set v | v in variants :: v.bandwidth
  }

  predicate Decreasing(s: seq<int>) {
    forall i, j :: 0 <= i < j < |s| ==> s[i] > s[j]
  }

  /** Under the limit just below a listed bandwidth, that bandwidth or a lower one is chosen, but not 0. */
  predicate Sinks(variants: seq<Variant>)
    requires variants != []
  {
    forall v {:trigger SinksAt(variants, v)} :: v in variants ==> SinksAt(variants, v)
  }

  predicate SinksAt(variants: seq<Variant>, v: Variant)
    requires variants != []
  {
    v.bandwidth > 0 ==> 0 < Chosen(variants, v.bandwidth - 1) <= v.bandwidth
  }

  lemma ChosenHeld(variants: seq<Variant>, limit: int)
    requires variants != []
    ensures IsHeld(variants, limit, variants[|variants| - 1], variants[Held(variants, limit, |variants|)])
  {
    HeldRight(variants, limit, |variants|);
    assert variants[..|variants|] == variants;
  }

  predicate AllOne(variants: seq<Variant>) {
    forall v :: v in variants ==> v.bandwidth == 1
  }

  lemma SinksFrom(variants: seq<Variant>, v: Variant)
    requires Positive(variants) && v in variants
    ensures SinksAt(variants, v) <==> v.bandwidth > 1 || AllOne(variants)
  {
    ChosenHeld(variants, v.bandwidth - 1);
  }

  /** Positive bandwidths sink exactly if they are all above 1, or all 1. */
  lemma AboveOneSinks(variants: seq<Variant>)
    requires variants != [] && Positive(variants)
    ensures Sinks(variants) <==> AllAboveOne(variants) || AllOne(variants)
  {
    forall v | v in variants ensures SinksAt(variants, v) <==> v.bandwidth > 1 || AllOne(variants) {
      SinksFrom(variants, v);
    }
  }

  /** The last 0 among the first `n` variants stands at `z`, or there is none and `z` is -1. */
  predicate IsLastZero(variants: seq<Variant>, n: nat, z: int)
    requires n <= |variants|
  {
    -1 <= z < n && (z >= 0 ==> variants[z].bandwidth == 0) && forall j :: z < j < n ==> variants[j].bandwidth != 0
  }

  lemma {:induction false} LastZero(variants: seq<Variant>, n: nat) returns (z: int)
    requires n <= |variants|
    ensures IsLastZero(variants, n, z)
  {
    z := -1;
    if n > 0 {
      if variants[n - 1].bandwidth == 0 { z := n - 1; } else { z := LastZero(variants, n - 1); }
    }
  }

  /** Where nothing positive is within the limit, the loop holds the smallest bandwidth behind the last 0, or that 0. */
  lemma {:induction false} HeldBehindZero(variants: seq<Variant>, limit: int, n: nat, z: int)
    requires 0 < n <= |variants| && limit > 0 && !PositiveFits(variants, limit) && IsLastZero(variants, n, z)
    ensures var i := Held(variants, limit, n);
      if z == n - 1 then variants[i].bandwidth == 0
      else z < i && variants[i].bandwidth > 0 && forall j :: z < j < n ==> variants[i].bandwidth <= variants[j].bandwidth
  {
    assert variants[n - 1] in variants;
    if n > 1 {
      assert variants[Held(variants, limit, n - 1)] in variants;
      if z == n - 1 {
        HeldRight(variants, limit, n - 1);
      } else {
        HeldBehindZero(variants, limit, n - 1, z);
      }
    }
  }

  predicate IsSmallest(variants: seq<Variant>, p: nat) {
    p > 0 && (exists v :: v in variants && v.bandwidth == p) && forall v :: v in variants && v.bandwidth > 0 ==> p <= v.bandwidth
  }

  /** The smallest positive bandwidth is 1 and there is none above it, or it is above 1 and stands behind the last 0. */
  predicate SmallestSinks(variants: seq<Variant>, p: nat) {
    if p == 1 then forall v :: v in variants ==> v.bandwidth <= 1
    else exists i :: 0 <= i < |variants| && variants[i].bandwidth == p && NoZeroBehind(variants, i)
  }

  predicate NoZeroBehind(variants: seq<Variant>, i: nat) {
    forall j :: i < j < |variants| ==> variants[j].bandwidth != 0
  }

  lemma SmallestChosen(variants: seq<Variant>, v: Variant)
    requires variants != [] && v in variants && IsSmallest(variants, v.bandwidth) && v.bandwidth > 1
    ensures SinksAt(variants, v) <==> SmallestSinks(variants, v.bandwidth)
  {
    var n, p := |variants|, v.bandwidth;
    var z := LastZero(variants, n);
    assert !PositiveFits(variants, p - 1);
    HeldBehindZero(variants, p - 1, n, z);
    var h := Held(variants, p - 1, n);
    assert variants[h] in variants;
    if SmallestSinks(variants, p) {
      var i :| 0 <= i < n && variants[i].bandwidth == p && NoZeroBehind(variants, i);
      assert z < i;
    }
    if SinksAt(variants, v) {
      assert variants[h].bandwidth == p && NoZeroBehind(variants, h);
    }
  }

  lemma LargerSinks(variants: seq<Variant>, v: Variant, p: nat)
    requires variants != [] && v in variants && IsSmallest(variants, p)
    ensures v.bandwidth > p > 1 ==> SinksAt(variants, v)
    ensures p == 1 && v.bandwidth == 1 ==> (SinksAt(variants, v) <==> SmallestSinks(variants, 1))
  {
    ChosenHeld(variants, v.bandwidth - 1);
    if v.bandwidth > p {
      var w :| w in variants && w.bandwidth == p;
      assert PositiveFits(variants, v.bandwidth - 1);
    }
  }

  /** In plain terms: variants sink exactly if none is positive, or the smallest positive one does. */
  lemma SinksPlainly(variants: seq<Variant>, p: nat)
    requires variants != []
    ensures !(exists v :: v in variants && v.bandwidth > 0) ==> Sinks(variants)
    ensures IsSmallest(variants, p) ==> (Sinks(variants) <==> SmallestSinks(variants, p))
  {
    if IsSmallest(variants, p) {
      var u :| u in variants && u.bandwidth == p;
      LargerSinks(variants, u, p);
      if p > 1 { SmallestChosen(variants, u); }
      assert Sinks(variants) ==> SinksAt(variants, u);
      forall v | v in variants ensures SinksAt(variants, u) ==> SinksAt(variants, v) {
        LargerSinks(variants, v, p);
        if v.bandwidth == p { assert v.bandwidth == u.bandwidth; }
      }
    } else if !exists v :: v in variants && v.bandwidth > 0 {
      forall v | v in variants ensures SinksAt(variants, v) { }
    }
  }

  /** Where bandwidths sink, a 0 at the end of the list comes after a 1: otherwise it would be chosen just below the smallest. */
  lemma SmallestIsOne(variants: seq<Variant>, v: Variant)
    requires variants != [] && Sinks(variants) && v in variants && v.bandwidth > 0 && variants[|variants| - 1].bandwidth == 0
    ensures PositiveFits(variants, 1)
    decreases v.bandwidth
  {
    if v.bandwidth > 1 {
      assert SinksAt(variants, v);
      ChosenHeld(variants, v.bandwidth - 1);
      if w :| w in variants && 0 < w.bandwidth <= v.bandwidth - 1 { SmallestIsOne(variants, w); }
    }
  }

  /** And 0 is chosen only if there is nothing else. */
  lemma NotZero(variants: seq<Variant>, limit: int, v: Variant)
    requires variants != [] && Sinks(variants) && v in variants && v.bandwidth > 0
    ensures Chosen(variants, limit) > 0
  {
    ChosenHeld(variants, limit);
    if limit > 0 && variants[|variants| - 1].bandwidth == 0 {
      SmallestIsOne(variants, v);
      var w :| w in variants && 0 < w.bandwidth <= 1;
      assert PositiveFits(variants, limit);
    }
  }

  function Since(s: State): seq<int> {
    if s.before <= |s.lowered| then s.lowered[s.before..] else []
  }

  /** A bandwidth the recorder can be using. */
  predicate IsUsable(variants: seq<Variant>, b: int) {
    b in Bandwidths(variants) && (b > 0 || !exists v :: v in variants && v.bandwidth > 0)
  }

  ghost predicate Inv(s: State, variants: seq<Variant>)
    requires variants != []
  {
    && s.before <= |s.lowered| && Decreasing(Since(s))
    && (forall b :: b in Since(s) ==> IsUsable(variants, b))
    && (Since(s) == [] ==> s.limits.bw500 <= 0)
    && (Since(s) != [] ==> s.limits.bw500 == s.lowered[|s.lowered| - 1] && s.limits.limitBw == s.limits.bw500 - 1)
    && (s.phase == Media ==> s.playing.bandwidth == Chosen(variants, s.limits.limitBw))
    && s.before <= s.masters * |Bandwidths(variants)|
  }

  lemma ChosenUsable(variants: seq<Variant>, limit: int)
    requires variants != [] && Sinks(variants)
    ensures IsUsable(variants, Chosen(variants, limit))
  {
    if v :| v in variants && v.bandwidth > 0 { NotZero(variants, limit, v); }
  }

  /** Under the limit that a lowering has set, the choice is that bandwidth again or a lower one. */
  lemma ChosenBelow(variants: seq<Variant>, lowered: int)
    requires variants != [] && Sinks(variants) && IsUsable(variants, lowered)
    ensures Chosen(variants, lowered - 1) <= lowered
  {
    var v :| v in variants && v.bandwidth == lowered;
    assert SinksAt(variants, v);
    ChosenHeld(variants, lowered - 1);
  }

  lemma SinceGrows(s: State, b: int)
    requires s.before <= |s.lowered| && Decreasing(Since(s)) && (Since(s) != [] ==> b < s.lowered[|s.lowered| - 1])
    ensures var t := s.(lowered := s.lowered + [b]); Since(t) == Since(s) + [b] && Decreasing(Since(t))
  {
    var t := s.(lowered := s.lowered + [b]);
    assert Since(t) == Since(s) + [b];
    if Since(s) != [] { assert Since(s)[|Since(s)| - 1] == s.lowered[|s.lowered| - 1]; }
  }

  lemma LoweringKeepsInv(s: State, variants: seq<Variant>, original: int)
    requires variants != [] && Sinks(variants) && Inv(s, variants) && Enabled(s, Media5xx) && Lowers(s.limits, s.playing)
    ensures Inv(Next(s, Media5xx, variants, original), variants)
  {
    ChosenUsable(variants, s.limits.limitBw);
    if Since(s) != [] {
      assert s.limits.bw500 == Since(s)[|Since(s)| - 1];
      ChosenBelow(variants, s.limits.bw500);
    }
    SinceGrows(s, s.playing.bandwidth);
  }

  lemma MediaErrorKeepsInv(s: State, variants: seq<Variant>, original: int)
    requires variants != [] && Sinks(variants) && Inv(s, variants) && Enabled(s, Media5xx)
    ensures Inv(Next(s, Media5xx, variants, original), variants)
  {
    if Lowers(s.limits, s.playing) { LoweringKeepsInv(s, variants, original); }
  }

  lemma MasterErrorKeepsInv(s: State, variants: seq<Variant>, original: int)
    requires variants != [] && Inv(s, variants)
    ensures Inv(Next(s, Master5xx, variants, original), variants)
  {
    DecreasingFits(Since(s), Bandwidths(variants));
    var n := |Bandwidths(variants)|;
    assert (s.masters + 1) * n == s.masters * n + n;
  }

  lemma StepKeepsInv(s: State, e: Event, variants: seq<Variant>, original: int)
    requires variants != [] && Sinks(variants) && Inv(s, variants) && Enabled(s, e)
    ensures Inv(Next(s, e, variants, original), variants)
  {
    match e
    case Media5xx => MediaErrorKeepsInv(s, variants, original);
    case Master5xx => MasterErrorKeepsInv(s, variants, original);
    case _ =>
  }

  function Masters(events: seq<Event>): nat {
    if events == [] then 0 else (if events[0] == Master5xx then 1 else 0) + Masters(events[1..])
  }

  lemma {:induction false} PlayKeepsInv(s: State, events: seq<Event>, variants: seq<Variant>, original: int)
    requires variants != [] && Sinks(variants) && Inv(s, variants) && Play(s, events, variants, original).Some?
    ensures var t := Play(s, events, variants, original).value; Inv(t, variants) && t.masters == s.masters + Masters(events)
    ensures Masters(events) == 0 ==> Play(s, events, variants, original).value.before == s.before
    decreases |events|
  {
    if events != [] {
      StepKeepsInv(s, events[0], variants, original);
      PlayKeepsInv(Next(s, events[0], variants, original), events[1..], variants, original);
    }
  }

  lemma {:induction false} DecreasingFits(s: seq<int>, all: set<int>)
    requires Decreasing(s) && forall b :: b in s ==> b in all
    ensures |s| <= |all|
    decreases |s|
  {
    if s != [] {
      var last := s[|s| - 1];
      assert last in s;
      DecreasingFits(s[..|s| - 1], all - {last});
    }
  }

  /** In every run the bandwidths at which the limit is lowered strictly decrease from one error of the master playlist to the
      next, so there are at most as many lowerings as bandwidths in between. */
  lemma LoweringsDecrease(events: seq<Event>, variants: seq<Variant>, original: int)
    requires variants != [] && Sinks(variants) && Run(events, variants, original).Some?
    ensures var s := Run(events, variants, original).value;
      && Decreasing(Since(s))
      && (Masters(events) == 0 ==> Since(s) == s.lowered)
      && |s.lowered| <= (1 + Masters(events)) * |Bandwidths(variants)|
  {
    PlayKeepsInv(Init(original), events, variants, original);
    var s, n := Run(events, variants, original).value, |Bandwidths(variants)|;
    DecreasingFits(Since(s), Bandwidths(variants));
    assert (1 + s.masters) * n == n + s.masters * n;
  }

  /** Once the smallest bandwidth has been lowered, the next error that would lower the limit fails the recording. */
  lemma ThenItFails(events: seq<Event>, variants: seq<Variant>, original: int)
    requires variants != [] && Sinks(variants) && Run(events, variants, original).Some?
    requires var s := Run(events, variants, original).value;
      && s.phase == Media && Since(s) != [] && (forall v :: v in variants ==> s.lowered[|s.lowered| - 1] <= v.bandwidth)
      && s.limits.seqNo500 == s.playing.seqNo && s.limits.cnt500 >= 2
    ensures var s := Run(events, variants, original).value; Next(s, Media5xx, variants, original).failed
  {
    PlayKeepsInv(Init(original), events, variants, original);
    var s := Run(events, variants, original).value;
    assert s.limits.bw500 == Since(s)[|Since(s)| - 1];
    ChosenBelow(variants, s.limits.bw500);
  }

  // ---------- And nowhere else ----------

  lemma {:induction false} PlayOneMore(s: State, a: seq<Event>, e: Event, variants: seq<Variant>, original: int)
    requires variants != [] && Play(s, a, variants, original).Some? && Enabled(Play(s, a, variants, original).value, e)
    ensures Play(s, a + [e], variants, original) == Some(Next(Play(s, a, variants, original).value, e, variants, original))
    ensures Masters(a + [e]) == Masters(a) + (if e == Master5xx then 1 else 0)
    decreases |a|
  {
    if a == [] {
      assert [e][1..] == [] && a + [e] == [e];
      assert Play(Next(s, e, variants, original), [], variants, original) == Some(Next(s, e, variants, original));
    } else {
      assert (a + [e])[0] == a[0] && (a + [e])[1..] == a[1..] + [e];
      PlayOneMore(Next(s, a[0], variants, original), a[1..], e, variants, original);
    }
  }

  /** The run `events` leads to `s` and has `masters` errors of the master playlist. */
  predicate Leads(events: seq<Event>, s: State, variants: seq<Variant>, original: int, masters: nat)
    requires variants != []
  {
    Run(events, variants, original) == Some(s) && Masters(events) == masters
  }

  lemma Extend(events: seq<Event>, s: State, e: Event, variants: seq<Variant>, original: int, masters: nat) returns (more: seq<Event>)
    requires variants != [] && Leads(events, s, variants, original, masters) && Enabled(s, e)
    ensures Leads(more, Next(s, e, variants, original), variants, original, masters + (if e == Master5xx then 1 else 0))
  {
    more := events + [e];
    PlayOneMore(Init(original), events, e, variants, original);
  }

  /** A server error right after the start. */
  function Failing(s: State, variants: seq<Variant>, original: int): State
    requires variants != []
  {
    Next(s.(playing := Playing(Chosen(variants, s.limits.limitBw), 0), phase := Media), Media5xx, variants, original)
  }

  lemma Round(events: seq<Event>, s: State, variants: seq<Variant>, original: int, masters: nat) returns (more: seq<Event>)
    requires variants != [] && Leads(events, s, variants, original, masters) && !s.failed
    ensures Leads(more, Failing(s, variants, original), variants, original, masters)
  {
    more := Extend(events, s, Start, variants, original, masters);
    var s1 := Next(s, Start, variants, original);
    more := Extend(more, s1, Select, variants, original, masters);
    more := Extend(more, Next(s1, Select, variants, original), Media5xx, variants, original, masters);
  }

  /** Three errors in a row lower the limit, at the start and again after an error of the master playlist. */
  lemma ThreeRounds(events: seq<Event>, s: State, variants: seq<Variant>, original: int, masters: nat) returns (more: seq<Event>, t: State)
    requires variants != [] && Leads(events, s, variants, original, masters) && !s.failed
    requires s.limits == MasterError(original) || (s.limits == Limits(original, 0, 0, 0) && Chosen(variants, original) > 0)
    ensures Leads(more, t, variants, original, masters) && !t.failed && t.phase == Ended
    ensures var b := Chosen(variants, original);
      t.lowered == s.lowered + [b] && t.limits.limitBw == b - 1 && t.limits.bw500 == b && t.limits.seqNo500 == 0 && t.limits.cnt500 >= 3
  {
    more := Round(events, s, variants, original, masters);
    var s1 := Failing(s, variants, original);
    more := Round(more, s1, variants, original, masters);
    var s2 := Failing(s1, variants, original);
    more := Round(more, s2, variants, original, masters);
    t := Failing(s2, variants, original);
  }

  lemma MasterFails(events: seq<Event>, s: State, variants: seq<Variant>, original: int, masters: nat) returns (more: seq<Event>, t: State)
    requires variants != [] && Leads(events, s, variants, original, masters) && !s.failed
    ensures Leads(more, t, variants, original, masters + 1) && !t.failed
    ensures t.limits == MasterError(original) && t.lowered == s.lowered
  {
    more := Extend(events, s, Start, variants, original, masters);
    t := Next(s, Start, variants, original);
    more := Extend(more, t, Master5xx, variants, original, masters);
    t := Next(t, Master5xx, variants, original);
  }

  /** An error of the master playlist makes the recorder forget what it lowered: whatever the variants, the same bandwidth is
      lowered again. (Where only 0 is listed it takes two errors, as nothing is lowered before the first.) */
  lemma MasterErrorForgets(variants: seq<Variant>, original: int) returns (events: seq<Event>)
    requires variants != []
    ensures Masters(events) == (if Chosen(variants, original) > 0 then 1 else 2) && Run(events, variants, original).Some?
    ensures Run(events, variants, original).value.lowered == [Chosen(variants, original), Chosen(variants, original)]
  {
    var s;
    var zero := if Chosen(variants, original) > 0 then 0 else 1;
    events, s := [], Init(original);
    if zero == 1 { events, s := MasterFails(events, s, variants, original, 0); }
    events, s := ThreeRounds(events, s, variants, original, zero);
    events, s := MasterFails(events, s, variants, original, zero);
    events, s := ThreeRounds(events, s, variants, original, zero + 1);
  }

  ghost predicate AlwaysDecreases(variants: seq<Variant>, original: int, masters: bool)
    requires variants != []
  {
    forall events :: Run(events, variants, original).Some? && (masters || Masters(events) == 0)
      ==> Decreasing(Run(events, variants, original).value.lowered)
  }

  /** For variants that sink, lowerings decrease over all runs of a setting exactly if the master playlist never fails. */
  lemma OnlyMasterErrors(variants: seq<Variant>, original: int, masters: bool)
    requires variants != [] && Sinks(variants)
    ensures AlwaysDecreases(variants, original, masters) <==> !masters
  {
    if masters {
      var events := MasterErrorForgets(variants, original);
      var b := Chosen(variants, original);
      var two := [b, b];
      assert two[0] == two[1] && !Decreasing(two);
    } else {
      forall events | Run(events, variants, original).Some? && Masters(events) == 0
        ensures Decreasing(Run(events, variants, original).value.lowered)
      {
        LoweringsDecrease(events, variants, original);
      }
    }
  }

  /** A bandwidth that does not sink is chosen under the limit that equals it, and climbs when it is lowered. */
  lemma Climbs(variants: seq<Variant>, v: Variant) returns (events: seq<Event>)
    requires variants != [] && v in variants && !SinksAt(variants, v)
    ensures Masters(events) == 0 && Run(events, variants, v.bandwidth).Some?
    ensures !Decreasing(Run(events, variants, v.bandwidth).value.lowered)
  {
    var b := v.bandwidth;
    ChosenHeld(variants, b);
    ChosenHeld(variants, -1);
    assert PositiveFits(variants, b) && Chosen(variants, b) == b && Chosen(variants, -1) >= b;
    var s;
    events, s := ThreeRounds([], Init(b), variants, b, 0);
    events := Round(events, s, variants, b, 0);
    var t := Failing(s, variants, b);
    assert t.lowered == [b, Chosen(variants, b - 1)];
    if Chosen(variants, b - 1) == 0 {
      events := Round(events, t, variants, b, 0);
      var u := Failing(t, variants, b);
      assert u.lowered == [b, 0, Chosen(variants, -1)];
      assert u.lowered[1] < u.lowered[2];
    } else {
      assert t.lowered[0] < t.lowered[1];
    }
  }

  /** And while the master playlist stays readable, lowerings decrease under every limit exactly for variants that sink. */
  lemma OnlySinking(variants: seq<Variant>)
    requires variants != []
    ensures (forall original :: AlwaysDecreases(variants, original, false)) <==> Sinks(variants)
  {
    if Sinks(variants) {
      forall original ensures AlwaysDecreases(variants, original, false) {
        forall events | Run(events, variants, original).Some? && Masters(events) == 0
          ensures Decreasing(Run(events, variants, original).value.lowered)
        {
          LoweringsDecrease(events, variants, original);
        }
      }
    } else {
      var v :| v in variants && !SinksAt(variants, v);
      var events := Climbs(variants, v);
      assert !AlwaysDecreases(variants, v.bandwidth, false);
    }
  }

  // ---------- Errors at different places ----------

  /** Only the third error at one place counts: the first at a new place starts counting again and changes nothing else, and the second
      only counts. */
  lemma NewPlaceStartsOver(l: Limits, p: Playing)
    ensures l.seqNo500 != p.seqNo ==>
      MediaError(l, p) == (Limits(l.limitBw, p.seqNo, 1, l.bw500), false)
    ensures l.seqNo500 == p.seqNo && l.cnt500 == 1 ==>
      MediaError(l, p) == (Limits(l.limitBw, p.seqNo, 2, l.bw500), false)
    ensures l.seqNo500 == p.seqNo && l.cnt500 >= 2 ==>
      MediaError(l, p) == if l.bw500 == p.bandwidth then (Limits(l.limitBw, p.seqNo, l.cnt500 + 1, l.bw500), true)
                          else (Limits(p.bandwidth - 1, p.seqNo, l.cnt500 + 1, p.bandwidth), false)
  {
  }
}
