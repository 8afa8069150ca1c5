/** What the polls of a recording miss: in live mode, and while the chunk addresses keep their format, no sequence number
    is passed over in silence. */
module Gaps {
  import opened MemDb
  import opened Playlist

  /** What was asked for and got an answer that is not an end of the poll. */
  function Answered(x: Fetched): set<int> {
    x.stored + x.missing + x.failed
  }

  /** `j` was stored, or answered 404 or 500, or a number above it and not above `k` was answered 404. */
  predicate Explained(x: Fetched, j: int, k: int) {
    j in Answered(x) || exists m :: j < m <= k && m in x.missing
  }

  ghost predicate NoGapUpTo(x: Fetched, k: int) {
    forall j :: 0 <= j <= k ==> Explained(x, j, k)
  }

  /** A chunk the index knows is stored. */
  ghost predicate Known(x: Fetched) {
    forall k :: k in x.rows && x.rows[k].is200 ==> k in x.stored
  }

  /** A mark stands only where nothing below is passed over. */
  ghost predicate Sound(x: Fetched) {
    Known(x) && forall k :: k in x.rows && x.rows[k].stopback ==> NoGapUpTo(x, k)
  }

  predicate Grew(x: Fetched, y: Fetched) {
    x.requested <= y.requested && x.missing <= y.missing && x.stored <= y.stored && x.failed <= y.failed
  }

  /** Whatever else it does, a step takes nothing back and marks nothing new. */
  predicate Extends(y: Fetched, x: Fetched) {
    && Grew(x, y)
    && (forall k :: k in y.rows ==>
          && (y.rows[k].stopback ==> k in x.rows && x.rows[k].stopback)
          && (y.rows[k].is200 ==> k in y.stored || (k in x.rows && x.rows[k].is200)))
  }

  lemma StillNoGap(x: Fetched, y: Fetched, k: int)
    requires NoGapUpTo(x, k) && Grew(x, y)
    ensures NoGapUpTo(y, k)
  {
    forall j | 0 <= j <= k ensures Explained(y, j, k) {
      assert Explained(x, j, k);
    }
  }

  lemma ExtendsSound(x: Fetched, y: Fetched)
    requires Sound(x) && Extends(y, x)
    ensures Sound(y)
  {
    forall k | k in y.rows && y.rows[k].stopback ensures NoGapUpTo(y, k) {
      StillNoGap(x, y, k);
    }
  }

  lemma NoGapUp(x: Fetched, low: int, k: int)
    requires NoGapUpTo(x, low) && low <= k && forall j :: low < j <= k ==> j in Answered(x)
    ensures NoGapUpTo(x, k)
  {
    forall j | 0 <= j <= k ensures Explained(x, j, k) {
      if j <= low { assert Explained(x, j, low); }
    }
  }

  /** The state of a poll that has dealt with the numbers below `i`: from `floor` on none of them ends a gap, and only
      they can be marked. */
  ghost predicate PollOk(p: Poll, floor: int, i: int) {
    && Sound(p.fetched) && floor < i
    && (forall k :: floor <= k < i ==> NoGapUpTo(p.fetched, k))
    && (floor <= p.minSeq || p.minSeq == MaxInt32) && p.maxSeq < i
  }

  lemma AnswersGrow(x: Fetched, y: Fetched)
    requires Grew(x, y)
    ensures Answered(x) <= Answered(y)
  {
  }

  lemma BackOk(p: Poll, i: int, top: int, answer: int -> Answer) returns (floor: int)
    requires Sound(p.fetched) && p.cut == Through && -1 <= i <= top
    requires forall j :: i < j <= top ==> j in Answered(p.fetched)
    requires (i <= p.minSeq || p.minSeq == MaxInt32) && p.maxSeq <= top
    ensures Extends(Back(p, i, answer).fetched, p.fetched)
    ensures Sound(Back(p, i, answer).fetched)
    ensures Back(p, i, answer).cut == Through ==> PollOk(Back(p, i, answer), floor, top + 1)
    decreases i + 1
  {
    floor := i;
    if i < 0 || StopsAt(p.fetched.rows, i) {
      forall k | floor <= k < top + 1 ensures NoGapUpTo(p.fetched, k) {
        NoGapUp(p.fetched, i, k);
      }
    } else {
      var q := WentBack(p, i, answer(i));
      ExtendsSound(p.fetched, q.fetched);
      AnswersGrow(p.fetched, q.fetched);
      if Stops(answer(i)) {
      } else if answer(i) == Code(404) {
        forall k | floor <= k < top + 1 ensures NoGapUpTo(q.fetched, k) {
          forall j | 0 <= j <= i ensures Explained(q.fetched, j, i) { }
          NoGapUp(q.fetched, i, k);
        }
      } else {
        floor := BackOk(q, i - 1, top, answer);
      }
    }
  }

  lemma OneListedOk(x: Fetched, y: Fetched, floor: int, i: int)
    requires floor < i && i in Answered(y) && Grew(x, y)
    requires forall k :: floor <= k < i ==> NoGapUpTo(x, k)
    ensures forall k :: floor <= k < i + 1 ==> NoGapUpTo(y, k)
  {
    forall k | floor <= k < i + 1 ensures NoGapUpTo(y, k) {
      if k < i { StillNoGap(x, y, k); }
      else {
        StillNoGap(x, y, i - 1);
        NoGapUp(y, i - 1, i);
      }
    }
  }

  lemma ForwardOk(p: Poll, floor: int, i: int, end: int, answer: int -> Answer, fast: bool)
    requires PollOk(p, floor, i) && i <= end && 0 <= i
    ensures Extends(Forward(p, i, end, answer, fast).fetched, p.fetched)
    ensures Sound(Forward(p, i, end, answer, fast).fetched)
    ensures Forward(p, i, end, answer, fast).cut == Through ==> PollOk(Forward(p, i, end, answer, fast), floor, end)
    decreases end - i
  {
    if i < end && p.cut == Through {
      var q := Forwarded(p, i, answer(i), fast);
      assert Extends(q.fetched, p.fetched);
      ExtendsSound(p.fetched, q.fetched);
      if q.cut == Through {
        OneListedOk(p.fetched, q.fetched, floor, i);
        ForwardOk(q, floor, i + 1, end, answer, fast);
      }
    }
  }

  /** Marking a range changes no other column. */
  lemma MarkedRows(rows: Rows, low: int, high: int)
    ensures forall k :: k in Marked(rows, low, high) && Marked(rows, low, high)[k].stopback
              ==> low <= k <= high || (k in rows && rows[k].stopback)
    ensures forall k :: k in Marked(rows, low, high) && Marked(rows, low, high)[k].is200 ==> k in rows && rows[k].is200
    decreases high - low
  {
    if low <= high { MarkedRows(PutStop(rows, low), low + 1, high); }
  }

  lemma FinishedOk(p: Poll, floor: int, end: int, seqNo: int)
    requires PollOk(p, floor, end)
    ensures Sound(Finished(p, seqNo)) && NoGapUpTo(Finished(p, seqNo), end - 1)
  {
    var x, y := p.fetched, Finished(p, seqNo);
    MarkedRows(x.rows, p.minSeq, p.maxSeq);
    forall k | k in y.rows && y.rows[k].stopback ensures NoGapUpTo(y, k) {
      assert NoGapUpTo(x, k);
      StillNoGap(x, y, k);
    }
    StillNoGap(x, y, end - 1);
  }

  /** One poll, complete or cut short, whose back-fill runs. */
  lemma PollKeepsSound(r: Recorder, l: Listing, answer: int -> Answer, c: Setting)
    requires Sound(r.fetched) && !c.timeshift && !SeenAll(r.format, l.formats).changed
    ensures var s := Polled(r, l, answer, c);
      && Sound(s.fetched) && Grew(r.fetched, s.fetched)
      && (Completes(r, l, answer, c) ==> NoGapUpTo(s.fetched, End(l) - 1))
  {
    if l.formats != [] {
      var b := AfterBack(r, l, answer, c);
      var floor := BackOk(Started(r.fetched), l.seqNo - 1, l.seqNo - 1, answer);
      if b.cut == Through {
        ForwardOk(b, floor, l.seqNo, End(l), answer, Restored(r, l, c));
        var p := Fetching(r, l, answer, c);
        if p.cut == Through { FinishedOk(p, floor, End(l), l.seqNo); }
      }
    }
  }

  /** What happens to a live recording: a start of the playlist goroutine, or a poll with the answers it gets. */
  datatype Event = Restart | Listed(list: Listing, answer: int -> Answer)

  function After(r: Recorder, e: Event, c: Setting): Recorder {
    match e
    case Restart => r.(format := Format("", false))
    case Listed(l, answer) => Polled(r, l, answer, c)
  }

  function Run(r: Recorder, events: seq<Event>, c: Setting): Recorder
    decreases |events|
  {
    if events == [] then r else After(Run(r, events[..|events| - 1], c), events[|events| - 1], c)
  }

  /** Every chunk address of the run has the one format `text`. */
  predicate Stable(events: seq<Event>, text: string) {
    forall i :: 0 <= i < |events| && events[i].Listed? ==> forall f :: f in events[i].list.formats ==> f == text
  }

  predicate Settled(f: Format, text: string) {
    !f.changed && (f.text == "" || f.text == text)
  }

  lemma {:induction false} StaysSettled(f: Format, texts: seq<string>, text: string)
    requires Settled(f, text) && forall t :: t in texts ==> t == text
    ensures Settled(SeenAll(f, texts), text)
    decreases |texts|
  {
    if texts != [] {
      assert texts[0] in texts && forall t :: t in texts[1..] ==> t in texts;
      StaysSettled(Seen(f, texts[0]), texts[1..], text);
    }
  }

  lemma {:induction false} RunKeepsSound(r: Recorder, events: seq<Event>, c: Setting, text: string)
    requires Sound(r.fetched) && Settled(r.format, text) && !c.timeshift && Stable(events, text)
    ensures Sound(Run(r, events, c).fetched) && Settled(Run(r, events, c).format, text)
    decreases |events|
  {
    if events != [] {
      var n := |events| - 1;
      RunKeepsSound(r, events[..n], c, text);
      var s, e := Run(r, events[..n], c), events[n];
      if e.Listed? {
        StaysSettled(s.format, e.list.formats, text);
        PollKeepsSound(s, e.list, e.answer, c);
      }
    }
  }

  /** Number `k` is the newest one listed by some poll of the run that was not cut short. */
  ghost predicate NewestOfCompleted(r: Recorder, events: seq<Event>, c: Setting, k: int) {
    exists i :: 0 <= i < |events| && CompletedAt(r, events, c, i) && k == End(events[i].list) - 1
  }

  predicate CompletedAt(r: Recorder, events: seq<Event>, c: Setting, i: nat)
    requires i < |events|
  {
    events[i].Listed? && Completes(Run(r, events[..i], c), events[i].list, events[i].answer, c)
  }

  /** The gap law from any sound start, whatever polls are cut short and however often the goroutine is restarted. */
  lemma {:induction false} NoGapFrom(r: Recorder, events: seq<Event>, c: Setting, text: string, i: nat)
    requires Sound(r.fetched) && Settled(r.format, text) && !c.timeshift && Stable(events, text)
    requires i < |events| && CompletedAt(r, events, c, i)
    ensures NoGapUpTo(Run(r, events, c).fetched, End(events[i].list) - 1)
    decreases |events|
  {
    var n := |events| - 1;
    var k := End(events[i].list) - 1;
    var s, e := Run(r, events[..n], c), events[n];
    RunKeepsSound(r, events[..n], c, text);
    if e.Listed? {
      StaysSettled(s.format, e.list.formats, text);
      PollKeepsSound(s, e.list, e.answer, c);
    }
    if i < n {
      assert events[..n][..i] == events[..i];
      NoGapFrom(r, events[..n], c, text, i);
      StillNoGap(s.fetched, Run(r, events, c).fetched, k);
    }
  }

  /** In live mode, with one address format and from an empty index, every number up to the newest one that a completed poll has
      listed is stored, or was answered 404 or 500, unless a number above it and not above that newest one was answered 404. */
  lemma NoSilentGaps(events: seq<Event>, c: Setting, text: string)
    requires !c.timeshift && Stable(events, text)
    ensures var first := Recorder(Empty, Format("", false), c.fast);
      forall k :: NewestOfCompleted(first, events, c, k) ==> NoGapUpTo(Run(first, events, c).fetched, k)
  {
    var first := Recorder(Empty, Format("", false), c.fast);
    forall k | NewestOfCompleted(first, events, c, k) ensures NoGapUpTo(Run(first, events, c).fetched, k) {
      var i :| 0 <= i < |events| && CompletedAt(first, events, c, i) && k == End(events[i].list) - 1;
      NoGapFrom(first, events, c, text, i);
    }
  }

  // ---------- Every setting ----------

  /** What was answered was asked for. */
  predicate History(x: Fetched) {
    Answered(x) <= x.requested
  }

  lemma SavedKnown(x: Fetched, n: int, a: Answer)
    requires Known(x) && History(x)
    ensures Known(Saved(x, n, a)) && History(Saved(x, n, a))
  {
  }

  lemma {:induction false} BackKnown(p: Poll, i: int, answer: int -> Answer)
    requires Known(p.fetched) && History(p.fetched)
    ensures Known(Back(p, i, answer).fetched) && History(Back(p, i, answer).fetched)
    decreases i + 1
  {
    if !(i < 0 || StopsAt(p.fetched.rows, i)) {
      SavedKnown(p.fetched, i, answer(i));
      if !(Stops(answer(i)) || answer(i) == Code(404)) { BackKnown(WentBack(p, i, answer(i)), i - 1, answer); }
    }
  }

  lemma {:induction false} ForwardKnown(p: Poll, i: int, end: int, answer: int -> Answer, fast: bool)
    requires Known(p.fetched) && History(p.fetched)
    ensures Known(Forward(p, i, end, answer, fast).fetched) && History(Forward(p, i, end, answer, fast).fetched)
    decreases end - i
  {
    if i < end && p.cut == Through {
      SavedKnown(p.fetched, i, answer(i));
      ForwardKnown(Forwarded(p, i, answer(i), fast), i + 1, end, answer, fast);
    }
  }

  lemma PolledKnown(r: Recorder, l: Listing, answer: int -> Answer, c: Setting)
    requires Known(r.fetched) && History(r.fetched)
    ensures Known(Polled(r, l, answer, c).fetched) && History(Polled(r, l, answer, c).fetched)
  {
    if l.formats != [] {
      BackKnown(Started(r.fetched), l.seqNo - 1, answer);
      var b := AfterBack(r, l, answer, c);
      ForwardKnown(b, l.seqNo, End(l), answer, Restored(r, l, c));
      var p := Fetching(r, l, answer, c);
      MarkedRows(p.fetched.rows, p.minSeq, p.maxSeq);
    }
  }

  /** Live or in timeshift, whatever the addresses look like: what the index knows is stored, and was asked for. */
  lemma {:induction false} RunKnown(r: Recorder, events: seq<Event>, c: Setting)
    requires Known(r.fetched) && History(r.fetched)
    ensures Known(Run(r, events, c).fetched) && History(Run(r, events, c).fetched)
    decreases |events|
  {
    if events != [] {
      var n := |events| - 1;
      RunKnown(r, events[..n], c);
      if events[n].Listed? { PolledKnown(Run(r, events[..n], c), events[n].list, events[n].answer, c); }
    }
  }

  /** So the gap law says as much of what was asked for at all. */
  lemma ExplainedAsked(events: seq<Event>, c: Setting, j: int, k: int)
    requires var first := Recorder(Empty, Format("", false), c.fast); Explained(Run(first, events, c).fetched, j, k)
    ensures var x := Run(Recorder(Empty, Format("", false), c.fast), events, c).fetched;
      j in x.requested || exists m :: j < m <= k && m in x.missing
  {
    RunKnown(Recorder(Empty, Format("", false), c.fast), events, c);
  }

  // ---------- Where the law ends ----------

  predicate GoesBack(r: Recorder, l: Listing, c: Setting) {
    !c.timeshift && !SeenAll(r.format, l.formats).changed
  }

  lemma OneAsked(p: Poll, i: int, a: Answer, fast: bool)
    requires Known(p.fetched)
    ensures var q := Forwarded(p, i, a, fast);
      && Answered(p.fetched) <= Answered(q.fetched) <= Answered(p.fetched) + {i}
      && p.fetched.missing <= q.fetched.missing <= p.fetched.missing + {i}
      && (p.cut == q.cut == Through ==> i in Answered(q.fetched))
  {
  }

  /** The list itself: all of it is asked for, and nothing else. */
  lemma {:induction false} ForwardAsks(p: Poll, i: int, end: int, answer: int -> Answer, fast: bool)
    requires Known(p.fetched) && History(p.fetched) && p.cut == Through && i <= end
    ensures var q := Forward(p, i, end, answer, fast);
      && (forall j :: j < i ==> (j in Answered(q.fetched) <==> j in Answered(p.fetched)))
      && (forall m :: m < i ==> (m in q.fetched.missing <==> m in p.fetched.missing))
      && (q.cut == Through ==> forall j :: i <= j < end ==> j in Answered(q.fetched))
      && Answered(p.fetched) <= Answered(q.fetched)
    decreases end - i
  {
    if i < end {
      var q := Forwarded(p, i, answer(i), fast);
      SavedKnown(p.fetched, i, answer(i));
      OneAsked(p, i, answer(i), fast);
      if q.cut == Through { ForwardAsks(q, i + 1, end, answer, fast); }
    }
  }

  /** A listed chunk is known to be missing, or will be found to be. */
  predicate ListedMissing(x: Fetched, l: Listing, answer: int -> Answer) {
    exists m :: l.seqNo <= m < End(l) && (m in x.missing || (!Is200(x.rows, m) && answer(m) == Code(404)))
  }

  /** Which chunks of the list end up missing: those that were, and those not known to be there and answered 404. */
  lemma {:induction false} ForwardMisses(p: Poll, i: int, end: int, answer: int -> Answer, fast: bool)
    requires i <= end && Forward(p, i, end, answer, fast).cut == Through
    ensures forall m :: i <= m < end ==>
      (m in Forward(p, i, end, answer, fast).fetched.missing
       <==> m in p.fetched.missing || (!Is200(p.fetched.rows, m) && answer(m) == Code(404)))
    decreases end - i
  {
    if i < end {
      var q := Forwarded(p, i, answer(i), fast);
      ForwardMisses(q, i + 1, end, answer, fast);
      BelowKept(q, i + 1, end, answer, fast, i);
    }
  }

  lemma {:induction false} BelowKept(p: Poll, i: int, end: int, answer: int -> Answer, fast: bool, m: int)
    requires m < i
    ensures m in Forward(p, i, end, answer, fast).fetched.missing <==> m in p.fetched.missing
    decreases end - i
  {
    if i < end && p.cut == Through { BelowKept(Forwarded(p, i, answer(i), fast), i + 1, end, answer, fast, m); }
  }

  /** Without the back-fill a completed poll leaves no gap exactly when there was none below the list, or a listed chunk was
      known to be missing or is answered 404. */
  lemma WithoutBackFill(r: Recorder, l: Listing, answer: int -> Answer, c: Setting)
    requires Known(r.fetched) && History(r.fetched) && !GoesBack(r, l, c) && Completes(r, l, answer, c)
    ensures var x := Polled(r, l, answer, c).fetched;
      NoGapUpTo(x, End(l) - 1) <==> NoGapUpTo(r.fetched, l.seqNo - 1) || ListedMissing(r.fetched, l, answer)
  {
    var x, y := r.fetched, Polled(r, l, answer, c).fetched;
    ForwardAsks(Started(x), l.seqNo, End(l), answer, Restored(r, l, c));
    ForwardMisses(Started(x), l.seqNo, End(l), answer, Restored(r, l, c));
    if ListedMissing(x, l, answer) {
      var m :| l.seqNo <= m < End(l) && m in y.missing;
    } else if NoGapUpTo(x, l.seqNo - 1) {
      var top := End(l) - 1;
      forall j | 0 <= j <= top ensures Explained(y, j, top) {
        if j < l.seqNo { assert Explained(x, j, l.seqNo - 1); }
      }
    } else {
      var j :| 0 <= j <= l.seqNo - 1 && !Explained(x, j, l.seqNo - 1);
      assert !Explained(y, j, End(l) - 1);
    }
  }

  /** From an empty index this is so of every completed poll of every run, also of those after a loss. */
  lemma EveryPollWithoutBackFill(events: seq<Event>, c: Setting, i: nat)
    requires i < |events| && var first := Recorder(Empty, Format("", false), c.fast);
      CompletedAt(first, events, c, i) && !GoesBack(Run(first, events[..i], c), events[i].list, c)
    ensures var before := Run(Recorder(Empty, Format("", false), c.fast), events[..i], c);
      var l := events[i].list;
      NoGapUpTo(After(before, events[i], c).fetched, End(l) - 1)
      <==> NoGapUpTo(before.fetched, l.seqNo - 1) || ListedMissing(before.fetched, l, events[i].answer)
  {
    var first := Recorder(Empty, Format("", false), c.fast);
    RunKnown(first, events[..i], c);
    WithoutBackFill(Run(first, events[..i], c), events[i].list, events[i].answer, c);
  }

  const Answer200: int -> Answer := _ => Code(200)

  /** So a changed address format loses chunks: nothing goes back from the second list. */
  lemma FormatChangeLosesChunks(first: Listing, second: Listing, c: Setting)
    requires !c.timeshift && first == Listing(0, ["a"], false) && second.formats == ["b"] && second.seqNo > 1
    ensures var r := Recorder(Empty, Format("", false), c.fast);
      var events := [Listed(first, Answer200), Listed(second, Answer200)];
      NewestOfCompleted(r, events, c, second.seqNo) && !NoGapUpTo(Run(r, events, c).fetched, second.seqNo)
  {
    var r, n := Recorder(Empty, Format("", false), c.fast), second.seqNo;
    var events := [Listed(first, Answer200), Listed(second, Answer200)];
    assert events[..1] == [Listed(first, Answer200)] && events[..1][..0] == [];
    var r1, r2 := Polled(r, first, Answer200, c), Run(r, events, c);
    FirstOfTwo(r, first, c);
    assert second.formats[1..] == [];
    assert SeenAll(r1.format, second.formats) == SeenAll(Format("a", true), []) == Format("a", true);
    assert AfterBack(r1, second, Answer200, c) == Started(r1.fetched);
    var p := Forwarded(Started(r1.fetched), n, Code(200), r1.fast);
    assert Forward(p, n + 1, n + 1, Answer200, r1.fast) == p;
    assert Fetching(r1, second, Answer200, c) == p;
    assert CompletedAt(r, events, c, 1);
    assert Run(r, events[..1], c) == r1;
    assert r2 == Polled(r1, second, Answer200, c);
    assert r2.fetched.stored == {0, n} && r2.fetched.missing == {} && r2.fetched.failed == {};
    assert !Explained(r2.fetched, 1, n);
  }

  lemma FirstOfTwo(r: Recorder, first: Listing, c: Setting)
    requires r == Recorder(Empty, Format("", false), c.fast) && !c.timeshift && first == Listing(0, ["a"], false)
    ensures Polled(r, first, Answer200, c) == Recorder(Fetched(map[0 := Row(true, false, false)], {0}, {}, {0}, {}), Format("a", false), c.fast)
  {
    assert first.formats[1..] == [];
    assert SeenAll(r.format, first.formats) == SeenAll(Format("a", false), []) == Format("a", false);
    var p := Forwarded(Started(Empty), 0, Code(200), c.fast);
    assert Fetching(r, first, Answer200, c) == p;
  }

  // ---------- A recording taken up again ----------

  predicate Table(table: seq<Stored>) {
    Ascending(table) && forall i :: 0 <= i < |table| ==> 0 <= table[i].seqno
  }

  /** What an earlier recording has asked for, as far as its media table tells. */
  function Reopened(rows: Rows, table: seq<Stored>): Fetched {
    Fetched(rows, set i | 0 <= i < |table| :: table[i].seqno, set i | 0 <= i < |table| && table[i].notfound :: table[i].seqno,
            set i | 0 <= i < |table| && !table[i].notfound :: table[i].seqno, {})
  }

  /** Up to their first missing chunk the rows follow one another. */
  predicate Consecutive(latest: seq<Stored>) {
    forall i :: 0 < i < |latest| && NoneMissing(latest, i + 1) ==> latest[i].seqno == latest[i - 1].seqno + 1
  }

  /** The rows are all accounted for: those that are present, as stored. */
  predicate RowsKept(x: Fetched, latest: seq<Stored>) {
    forall j :: 0 <= j < |latest| ==> latest[j].seqno in Answered(x) && (Present(latest[j]) ==> latest[j].seqno in x.stored)
  }

  lemma {:induction false} NoGapAtRow(x: Fetched, latest: seq<Stored>, i: nat)
    requires i < |latest| && NoneMissing(latest, i + 1) && Consecutive(latest) && NoGapUpTo(x, latest[0].seqno)
    requires RowsKept(x, latest)
    ensures NoGapUpTo(x, latest[i].seqno)
  {
    if i > 0 {
      NoGapAtRow(x, latest, i - 1);
      NoGapUp(x, latest[i - 1].seqno, latest[i].seqno);
    }
  }

  lemma RowBelow(table: seq<Stored>, x: Fetched, n: nat, latest: seq<Stored>, i: nat)
    requires Table(table) && x == Reopened(x.rows, table) && n <= |table| && latest == table[n..]
    requires 0 < i < |latest| && Present(latest[i]) && NoGapUpTo(x, latest[i].seqno)
    ensures latest[i].seqno == latest[i - 1].seqno + 1
  {
    var k := latest[i].seqno;
    assert table[n + i] == latest[i] && table[n + i - 1] == latest[i - 1];
    assert Explained(x, k - 1, k);
    assert k !in x.missing;
    var j :| 0 <= j < |table| && table[j].seqno == k - 1;
  }

  lemma SoundRowsFollow(table: seq<Stored>, x: Fetched, n: nat, latest: seq<Stored>)
    requires Table(table) && x == Reopened(x.rows, table) && n <= |table| && latest == table[n..] && latest != []
    requires Describes(x.rows, latest, |latest|) && Sound(x) && Present(latest[0])
    ensures NoGapUpTo(x, latest[0].seqno) && Consecutive(latest)
  {
    assert DescribesOne(x.rows, latest, 0);
    forall i | 0 < i < |latest| && NoneMissing(latest, i + 1)
      ensures latest[i].seqno == latest[i - 1].seqno + 1
    {
      assert DescribesOne(x.rows, latest, i);
      RowBelow(table, x, n, latest, i);
    }
  }

  lemma FollowingRowsSound(x: Fetched, latest: seq<Stored>)
    requires latest != [] && Describes(x.rows, latest, |latest|) && RowsKept(x, latest)
    requires Present(latest[0]) ==> NoGapUpTo(x, latest[0].seqno) && Consecutive(latest)
    ensures Sound(x)
  {
    forall k | k in x.rows && x.rows[k].stopback ensures NoGapUpTo(x, k) {
      var i :| 0 <= i < |latest| && latest[i].seqno == k;
      assert DescribesOne(x.rows, latest, i);
      NoGapAtRow(x, latest, i);
    }
    forall k | k in x.rows && x.rows[k].is200 ensures k in x.stored {
      var i :| 0 <= i < |latest| && latest[i].seqno == k;
      assert DescribesOne(x.rows, latest, i);
    }
  }

  /** The index of a reopened recording can start the gap law anew exactly when the first of its last ten rows is missing,
      or leaves no gap below it and up to the first missing chunk the rows follow one another. */
  lemma ReopenedSound(rows: Rows, table: seq<Stored>)
    requires Table(table) && Describes(rows, Latest(table), |Latest(table)|)
    ensures var x, latest := Reopened(rows, table), Latest(table);
      Sound(x) <==> latest == [] || !Present(latest[0]) || (NoGapUpTo(x, latest[0].seqno) && Consecutive(latest))
  {
    var x, latest := Reopened(rows, table), Latest(table);
    var n := |table| - |latest|;
    assert latest == table[n..];
    forall j | 0 <= j < |latest| ensures latest[j].seqno in Answered(x) && (Present(latest[j]) ==> latest[j].seqno in x.stored) {
      assert table[n + j] == latest[j];
    }
    if latest != [] {
      if Sound(x) && Present(latest[0]) {
        SoundRowsFollow(table, x, n, latest);
      } else if !Sound(x) && (!Present(latest[0]) || (NoGapUpTo(x, latest[0].seqno) && Consecutive(latest))) {
        FollowingRowsSound(x, latest);
      }
    }
  }
}
