/** What a completed poll leaves in the index: where it marks, what it forgets, and what the next poll is spared. */
module Polls {
  import opened MemDb
  import opened Playlist
  import opened Gaps

  // ---------- What a poll asks for ----------

  /** No answer above `j` has ended the way back, and no mark. */
  predicate WayBackOpen(rows: Rows, from: int, answer: int -> Answer, j: int) {
    forall i :: j < i <= from ==> !StopsAt(rows, i) && !Stops(answer(i)) && answer(i) != Code(404)
  }

  /** Going back, the poll asks for number `j` below its list. */
  predicate AsksBelow(rows: Rows, from: int, answer: int -> Answer, j: int) {
    0 <= j <= from && !StopsAt(rows, j) && WayBackOpen(rows, from, answer, j)
  }

  /** Of its list, the poll asks for what it does not know to be there. */
  predicate AsksListed(rows: Rows, l: Listing, j: int) {
    l.seqNo <= j < End(l) && !Is200(rows, j)
  }

  predicate Asks(r: Recorder, l: Listing, answer: int -> Answer, c: Setting, j: int) {
    || (GoesBack(r, l, c) && AsksBelow(r.fetched.rows, l.seqNo - 1, answer, j))
    || AsksListed(r.fetched.rows, l, j)
  }

  /** No listed chunk asked for up to `j` was answered 404. */
  predicate NoneMissedTo(rows: Rows, l: Listing, answer: int -> Answer, j: int) {
    forall m :: l.seqNo <= m <= j && AsksListed(rows, l, m) ==> answer(m) != Code(404)
  }

  /** The lowest number a poll asked for, and the highest before any listed 404. */
  predicate IsSpan(r: Recorder, l: Listing, answer: int -> Answer, c: Setting, low: int, high: int) {
    var rows := r.fetched.rows;
    && Asks(r, l, answer, c, low) && Asks(r, l, answer, c, high) && NoneMissedTo(rows, l, answer, high)
  }

  ghost predicate IsWholeSpan(r: Recorder, l: Listing, answer: int -> Answer, c: Setting, low: int, high: int) {
    && IsSpan(r, l, answer, c, low, high)
    && (forall j :: Asks(r, l, answer, c, j) ==> low <= j)
    && (forall j :: Asks(r, l, answer, c, j) && NoneMissedTo(r.fetched.rows, l, answer, j) ==> j <= high)
  }

  // ---------- The way back ----------

  lemma SavedElsewhere(x: Fetched, i: int, a: Answer, j: int)
    requires i != j
    ensures StopsAt(Saved(x, i, a).rows, j) == StopsAt(x.rows, j) && Is200(Saved(x, i, a).rows, j) == Is200(x.rows, j)
  {
  }

  /** The numbers noted on the way back are the lowest asked for and the first. */
  lemma {:induction false} BackSpan(p: Poll, i: int, answer: int -> Answer)
    requires p.cut == Through && Back(p, i, answer).cut == Through
    ensures var q := Back(p, i, answer);
      && q.minSeq <= p.minSeq && q.maxSeq >= p.maxSeq && q.found404 == p.found404
      && (forall j :: AsksBelow(p.fetched.rows, i, answer, j) ==> q.minSeq <= j <= q.maxSeq)
      && (q.minSeq < p.minSeq ==> AsksBelow(p.fetched.rows, i, answer, q.minSeq))
      && (q.maxSeq > p.maxSeq ==> AsksBelow(p.fetched.rows, i, answer, q.maxSeq))
    decreases i + 1
  {
    var rows := p.fetched.rows;
    if i < 0 || StopsAt(rows, i) {
    } else {
      var q := WentBack(p, i, answer(i));
      if Stops(answer(i)) || answer(i) == Code(404) {
        forall j | AsksBelow(rows, i, answer, j) ensures j == i { }
      } else {
        BackSpan(q, i - 1, answer);
        forall j ensures AsksBelow(rows, i, answer, j) <==> j == i || AsksBelow(q.fetched.rows, i - 1, answer, j) {
          BackStep(p, i, answer, j);
        }
      }
    }
  }

  lemma BackStep(p: Poll, i: int, answer: int -> Answer, j: int)
    requires i >= 0 && !StopsAt(p.fetched.rows, i) && !Stops(answer(i)) && answer(i) != Code(404)
    ensures AsksBelow(p.fetched.rows, i, answer, j)
      <==> j == i || AsksBelow(WentBack(p, i, answer(i)).fetched.rows, i - 1, answer, j)
  {
    var rows, rows' := p.fetched.rows, WentBack(p, i, answer(i)).fetched.rows;
    forall k | k < i ensures StopsAt(rows', k) == StopsAt(rows, k) {
      SavedElsewhere(p.fetched, i, answer(i), k);
    }
    if j < i {
      assert WayBackOpen(rows, i, answer, j) <==> WayBackOpen(rows', i - 1, answer, j);
    }
  }

  /** Going back touches no row above. */
  lemma {:induction false} BackAbove(p: Poll, i: int, answer: int -> Answer, j: int)
    requires j > i
    ensures StopsAt(Back(p, i, answer).fetched.rows, j) == StopsAt(p.fetched.rows, j)
    ensures Is200(Back(p, i, answer).fetched.rows, j) == Is200(p.fetched.rows, j)
    decreases i + 1
  {
    if !(i < 0 || StopsAt(p.fetched.rows, i)) {
      SavedElsewhere(p.fetched, i, answer(i), j);
      if !(Stops(answer(i)) || answer(i) == Code(404)) { BackAbove(WentBack(p, i, answer(i)), i - 1, answer, j); }
    }
  }

  // ---------- The list ----------

  predicate AskedIn(rows: Rows, i: int, end: int, j: int) {
    i <= j < end && !Is200(rows, j)
  }

  predicate NoneMissedIn(rows: Rows, i: int, end: int, answer: int -> Answer, j: int) {
    forall m :: i <= m <= j && AskedIn(rows, i, end, m) ==> answer(m) != Code(404)
  }

  lemma AskedLater(p: Poll, i: int, end: int, answer: int -> Answer, fast: bool, j: int)
    requires i < end && p.cut == Through
    ensures AskedIn(p.fetched.rows, i, end, j)
      <==> (j == i && !Is200(p.fetched.rows, i)) || AskedIn(Forwarded(p, i, answer(i), fast).fetched.rows, i + 1, end, j)
  {
    if j > i { SavedElsewhere(p.fetched, i, answer(i), j); }
  }

  lemma NoneMissedLater(p: Poll, i: int, end: int, answer: int -> Answer, fast: bool, j: int)
    requires i < end && p.cut == Through && i <= j
    ensures NoneMissedIn(p.fetched.rows, i, end, answer, j)
      <==> (Is200(p.fetched.rows, i) || answer(i) != Code(404))
           && NoneMissedIn(Forwarded(p, i, answer(i), fast).fetched.rows, i + 1, end, answer, j)
  {
    var rows, rows' := p.fetched.rows, Forwarded(p, i, answer(i), fast).fetched.rows;
    forall m ensures AskedIn(rows, i, end, m) <==> (m == i && !Is200(rows, i)) || AskedIn(rows', i + 1, end, m) {
      AskedLater(p, i, end, answer, fast, m);
    }
  }

  /** The numbers noted along the list. */
  ghost predicate ListSpan(p: Poll, q: Poll, i: int, end: int, answer: int -> Answer) {
    var rows := p.fetched.rows;
    && q.minSeq <= p.minSeq && q.maxSeq >= p.maxSeq
    && (forall j :: AskedIn(rows, i, end, j) ==> q.minSeq <= j)
    && (forall j :: AskedIn(rows, i, end, j) && !p.found404 && NoneMissedIn(rows, i, end, answer, j) ==> j <= q.maxSeq)
    && (q.minSeq < p.minSeq ==> AskedIn(rows, i, end, q.minSeq))
    && (q.maxSeq > p.maxSeq ==> AskedIn(rows, i, end, q.maxSeq) && !p.found404 && NoneMissedIn(rows, i, end, answer, q.maxSeq))
  }

  lemma ListStep(p: Poll, q: Poll, r: Poll, i: int, end: int, answer: int -> Answer, fast: bool)
    requires i < end && p.cut == Through && p.maxSeq < i && q == Forwarded(p, i, answer(i), fast) && q.cut == Through
    requires ListSpan(q, r, i + 1, end, answer)
    ensures ListSpan(p, r, i, end, answer)
  {
    var rows := p.fetched.rows;
    forall j | AskedIn(rows, i, end, j)
      ensures r.minSeq <= j
      ensures !p.found404 && NoneMissedIn(rows, i, end, answer, j) ==> j <= r.maxSeq
    {
      AskedLater(p, i, end, answer, fast, j);
      NoneMissedLater(p, i, end, answer, fast, j);
    }
    AskedLater(p, i, end, answer, fast, r.minSeq);
    AskedLater(p, i, end, answer, fast, r.maxSeq);
    if r.maxSeq >= i { NoneMissedLater(p, i, end, answer, fast, r.maxSeq); }
  }

  lemma {:induction false} ForwardSpan(p: Poll, i: int, end: int, answer: int -> Answer, fast: bool)
    requires p.cut == Through && p.maxSeq < i && Forward(p, i, end, answer, fast).cut == Through
    ensures ListSpan(p, Forward(p, i, end, answer, fast), i, end, answer)
    decreases end - i
  {
    if i < end {
      var q := Forwarded(p, i, answer(i), fast);
      ForwardSpan(q, i + 1, end, answer, fast);
      ListStep(p, q, Forward(q, i + 1, end, answer, fast), i, end, answer, fast);
    }
  }

  // ---------- Each number in turn ----------

  predicate IsChunk(a: Answer) {
    a.Code? && a.code != 403 && a.code != 404 && a.code != 500
  }

  /** All that is known of one number. */
  datatype View = View(requested: bool, stored: bool, missing: bool, failed: bool, is200: bool, stops: bool)

  function ViewOf(x: Fetched, j: int): View {
    View(j in x.requested, j in x.stored, j in x.missing, j in x.failed, Is200(x.rows, j), StopsAt(x.rows, j))
  }

  /** What an answer that does not end the poll makes of it: a chunk is stored and known, a missing one noted and no longer known,
      either loses an older mark; a server error changes nothing in the index. */
  function Told(v: View, a: Answer): View {
    if IsChunk(a) then v.(requested := true, stored := true, is200 := true, stops := false)
    else if a == Code(404) then v.(requested := true, missing := true, is200 := false, stops := false)
    else if a == Code(500) then v.(requested := true, failed := true)
    else v.(requested := true)
  }

  lemma SavedView(x: Fetched, i: int, a: Answer, j: int)
    ensures ViewOf(Saved(x, i, a), j) == if i == j then Told(ViewOf(x, j), a) else ViewOf(x, j)
  {
  }

  lemma {:induction false} BackView(p: Poll, i: int, answer: int -> Answer, j: int)
    requires p.cut == Through && Back(p, i, answer).cut == Through
    ensures ViewOf(Back(p, i, answer).fetched, j)
      == if AsksBelow(p.fetched.rows, i, answer, j) then Told(ViewOf(p.fetched, j), answer(j)) else ViewOf(p.fetched, j)
    decreases i + 1
  {
    var rows := p.fetched.rows;
    if !(i < 0 || StopsAt(rows, i)) {
      var q := WentBack(p, i, answer(i));
      SavedView(p.fetched, i, answer(i), j);
      if !(Stops(answer(i)) || answer(i) == Code(404)) {
        BackView(q, i - 1, answer, j);
        BackStep(p, i, answer, j);
      }
    }
  }

  lemma {:induction false} ForwardView(p: Poll, i: int, end: int, answer: int -> Answer, fast: bool, j: int)
    requires p.cut == Through && Forward(p, i, end, answer, fast).cut == Through
    ensures ViewOf(Forward(p, i, end, answer, fast).fetched, j)
      == if AskedIn(p.fetched.rows, i, end, j) then Told(ViewOf(p.fetched, j), answer(j)) else ViewOf(p.fetched, j)
    decreases end - i
  {
    if i < end {
      var q := Forwarded(p, i, answer(i), fast);
      SavedView(p.fetched, i, answer(i), j);
      AskedLater(p, i, end, answer, fast, j);
      ForwardView(q, i + 1, end, answer, fast, j);
    }
  }

  lemma FetchedView(r: Recorder, l: Listing, answer: int -> Answer, c: Setting, j: int)
    requires Completes(r, l, answer, c)
    ensures ViewOf(Fetching(r, l, answer, c).fetched, j)
      == if Asks(r, l, answer, c, j) then Told(ViewOf(r.fetched, j), answer(j)) else ViewOf(r.fetched, j)
  {
    var b := AfterBack(r, l, answer, c);
    if GoesBack(r, l, c) {
      BackView(Started(r.fetched), l.seqNo - 1, answer, j);
      if j >= l.seqNo { BackAbove(Started(r.fetched), l.seqNo - 1, answer, j); }
    }
    ForwardView(b, l.seqNo, End(l), answer, Restored(r, l, c), j);
  }

  // ---------- The marks ----------

  lemma {:induction false} MarkedAt(rows: Rows, low: int, high: int, n: int)
    ensures StopsAt(Marked(rows, low, high), n) <==> low <= n <= high || StopsAt(rows, n)
    ensures Is200(Marked(rows, low, high), n) == Is200(rows, n)
    ensures n in Marked(rows, low, high) <==> low <= n <= high || n in rows
    decreases high - low
  {
    if low <= high { MarkedAt(PutStop(rows, low), low + 1, high, n); }
  }

  lemma SameMisses(r: Recorder, l: Listing, answer: int -> Answer, c: Setting, j: int)
    requires l.formats != []
    ensures var rows := AfterBack(r, l, answer, c).fetched.rows;
      && (AskedIn(rows, l.seqNo, End(l), j) <==> AsksListed(r.fetched.rows, l, j))
      && (NoneMissedIn(rows, l.seqNo, End(l), answer, j) <==> NoneMissedTo(r.fetched.rows, l, answer, j))
  {
    var rows := AfterBack(r, l, answer, c).fetched.rows;
    forall m | m >= l.seqNo ensures Is200(rows, m) == Is200(r.fetched.rows, m) {
      if GoesBack(r, l, c) { BackAbove(Started(r.fetched), l.seqNo - 1, answer, m); }
    }
    assert forall m :: AskedIn(rows, l.seqNo, End(l), m) <==> AsksListed(r.fetched.rows, l, m);
  }

  /** What a completed poll has noted by its end: the span of what it asked for. */
  lemma NotesSpan(r: Recorder, l: Listing, answer: int -> Answer, c: Setting, j: int)
    requires Completes(r, l, answer, c)
    ensures var p := Fetching(r, l, answer, c);
      && (Asks(r, l, answer, c, j) ==> p.minSeq <= j)
      && (Asks(r, l, answer, c, j) && NoneMissedTo(r.fetched.rows, l, answer, j) ==> j <= p.maxSeq)
      && (p.minSeq < MaxInt32 ==> Asks(r, l, answer, c, p.minSeq))
      && (p.maxSeq > -1 ==> Asks(r, l, answer, c, p.maxSeq) && NoneMissedTo(r.fetched.rows, l, answer, p.maxSeq))
      && p.minSeq <= MaxInt32 && p.maxSeq >= -1
  {
    var b, p := AfterBack(r, l, answer, c), Fetching(r, l, answer, c);
    if GoesBack(r, l, c) { BackSpan(Started(r.fetched), l.seqNo - 1, answer); }
    assert b.maxSeq < l.seqNo;
    ForwardSpan(b, l.seqNo, End(l), answer, Restored(r, l, c));
    SameMisses(r, l, answer, c, j);
    SameMisses(r, l, answer, c, p.minSeq);
    SameMisses(r, l, answer, c, p.maxSeq);
  }

  /** The marks of a completed poll: from the lowest number it asked for to the highest before any listed 404, if that is above 0, every
      number is marked; below, and more than 100 below the list, nothing is kept; what was not asked for keeps its mark, or has none. */
  lemma PollMarks(r: Recorder, l: Listing, answer: int -> Answer, c: Setting, low: int, high: int, n: int)
    requires Completes(r, l, answer, c) && IsWholeSpan(r, l, answer, c, low, high) && high > 0 && low < 2147483647
    ensures var rows := Polled(r, l, answer, c).fetched.rows;
      && (n < l.seqNo - 100 ==> n !in rows)
      && (n >= l.seqNo - 100 && low <= n <= high ==> StopsAt(rows, n))
      && (n >= l.seqNo - 100 && !(low <= n <= high) && !Asks(r, l, answer, c, n) ==> (StopsAt(rows, n) <==> StopsAt(r.fetched.rows, n)))
  {
    var p := Fetching(r, l, answer, c);
    NotesSpan(r, l, answer, c, low);
    NotesSpan(r, l, answer, c, high);
    MarkedAt(p.fetched.rows, p.minSeq, p.maxSeq, n);
    FetchedView(r, l, answer, c, n);
  }

  /** Where nothing was asked for, or only 0, or a listed 404 came first, the index is left as it is. */
  lemma NoMarks(r: Recorder, l: Listing, answer: int -> Answer, c: Setting, n: int)
    requires Completes(r, l, answer, c)
    requires forall j :: Asks(r, l, answer, c, j) && NoneMissedTo(r.fetched.rows, l, answer, j) ==> j <= 0
    ensures !Asks(r, l, answer, c, n) ==> (StopsAt(Polled(r, l, answer, c).fetched.rows, n) <==> StopsAt(r.fetched.rows, n))
  {
    NotesSpan(r, l, answer, c, 0);
    FetchedView(r, l, answer, c, n);
  }

  /** What a completed poll has asked for, stored, and found missing or failing: exactly what its list and the way back call for. */
  lemma PollAsks(r: Recorder, l: Listing, answer: int -> Answer, c: Setting, j: int)
    requires Completes(r, l, answer, c)
    ensures var x, y, asked, a := r.fetched, Polled(r, l, answer, c).fetched, Asks(r, l, answer, c, j), answer(j);
      && (j in y.requested <==> j in x.requested || asked)
      && (j in y.stored <==> j in x.stored || (asked && IsChunk(a)))
      && (j in y.missing <==> j in x.missing || (asked && a == Code(404)))
      && (j in y.failed <==> j in x.failed || (asked && a == Code(500)))
  {
    FetchedView(r, l, answer, c, j);
  }

  /** And which chunks the index knows afterwards, down to 100 below the list. */
  lemma PollKnows(r: Recorder, l: Listing, answer: int -> Answer, c: Setting, j: int)
    requires Completes(r, l, answer, c) && j >= l.seqNo - 100
    ensures Is200(Polled(r, l, answer, c).fetched.rows, j)
      <==> if Asks(r, l, answer, c, j) && answer(j) != Code(500) then IsChunk(answer(j)) else Is200(r.fetched.rows, j)
  {
    FetchedView(r, l, answer, c, j);
    if Asks(r, l, answer, c, j) { AskedAnswers(r, l, answer, c, j); }
    var p := Fetching(r, l, answer, c);
    MarkedAt(p.fetched.rows, p.minSeq, p.maxSeq, j);
  }

  /** A poll that completes has had no answer that would end it. */
  lemma AskedAnswers(r: Recorder, l: Listing, answer: int -> Answer, c: Setting, j: int)
    requires Completes(r, l, answer, c) && Asks(r, l, answer, c, j)
    ensures !Stops(answer(j))
  {
    if GoesBack(r, l, c) && AsksBelow(r.fetched.rows, l.seqNo - 1, answer, j) {
      BackAnswers(Started(r.fetched), l.seqNo - 1, answer, j);
    } else {
      SameMisses(r, l, answer, c, j);
      ForwardAnswers(AfterBack(r, l, answer, c), l.seqNo, End(l), answer, Restored(r, l, c), j);
    }
  }

  lemma {:induction false} BackAnswers(p: Poll, i: int, answer: int -> Answer, j: int)
    requires p.cut == Through && Back(p, i, answer).cut == Through && AsksBelow(p.fetched.rows, i, answer, j)
    ensures !Stops(answer(j))
    decreases i + 1
  {
    if j < i {
      BackStep(p, i, answer, j);
      BackAnswers(WentBack(p, i, answer(i)), i - 1, answer, j);
    }
  }

  lemma {:induction false} ForwardAnswers(p: Poll, i: int, end: int, answer: int -> Answer, fast: bool, j: int)
    requires p.cut == Through && Forward(p, i, end, answer, fast).cut == Through && AskedIn(p.fetched.rows, i, end, j)
    ensures !Stops(answer(j))
    decreases end - i
  {
    if i < j {
      AskedLater(p, i, end, answer, fast, j);
      ForwardAnswers(Forwarded(p, i, answer(i), fast), i + 1, end, answer, fast, j);
    }
  }

  // ---------- What the caller is told ----------

  /** What has cut a poll short. */
  ghost predicate IsCause(cut: Cut, requested: set<int>, answer: int -> Answer) {
    && (cut == Broken ==> exists j :: j in requested && answer(j) == NoAnswer)
    && (cut == Forbidden ==> exists j :: j in requested && answer(j) == Code(403))
    && (cut == Slowed ==> 0 in requested && answer(0) == Code(500))
  }

  ghost predicate IsLastAsked(rows: Rows, i: int, end: int, j: int) {
    AskedIn(rows, i, end, j) && forall k :: AskedIn(rows, i, end, k) ==> k <= j
  }

  /** The last of the listed chunks asked for was answered 500. */
  ghost predicate LastFailed(rows: Rows, i: int, end: int, answer: int -> Answer) {
    exists j :: IsLastAsked(rows, i, end, j) && answer(j) == Code(500)
  }

  ghost predicate NoneAsked(rows: Rows, i: int, end: int) {
    forall j :: !AskedIn(rows, i, end, j)
  }

  lemma {:induction false} BackCause(p: Poll, i: int, answer: int -> Answer)
    requires p.cut == Through
    ensures var q := Back(p, i, answer); IsCause(q.cut, q.fetched.requested, answer) && q.cut != Slowed && q.is500 == p.is500
    decreases i + 1
  {
    if !(i < 0 || StopsAt(p.fetched.rows, i)) {
      if Stops(answer(i)) || answer(i) == Code(404) {
        assert i in WentBack(p, i, answer(i)).fetched.requested;
      } else {
        BackCause(WentBack(p, i, answer(i)), i - 1, answer);
      }
    }
  }

  lemma {:induction false} ForwardCause(p: Poll, i: int, end: int, answer: int -> Answer, fast: bool)
    requires p.cut == Through
    ensures var q := Forward(p, i, end, answer, fast); IsCause(q.cut, q.fetched.requested, answer) && (q.cut == Slowed ==> fast)
    decreases end - i
  {
    if i < end {
      var q := Forwarded(p, i, answer(i), fast);
      assert q.cut != Through ==> i in q.fetched.requested;
      if q.cut == Through {
        ForwardCause(q, i + 1, end, answer, fast);
      } else {
        assert Forward(q, i + 1, end, answer, fast) == q;
      }
    }
  }

  lemma LastAskedStep(rows: Rows, rows': Rows, i: int, next: int, end: int)
    requires next == i + 1 && i < end
    requires forall j :: AskedIn(rows, i, end, j) <==> (j == i && !Is200(rows, i)) || AskedIn(rows', next, end, j)
    ensures NoneAsked(rows, i, end) <==> Is200(rows, i) && NoneAsked(rows', next, end)
    ensures forall j ::
      (IsLastAsked(rows, i, end, j) <==> IsLastAsked(rows', next, end, j) || (j == i && !Is200(rows, i) && NoneAsked(rows', next, end)))
  {
    forall j ensures IsLastAsked(rows, i, end, j)
      <==> IsLastAsked(rows', next, end, j) || (j == i && !Is200(rows, i) && NoneAsked(rows', next, end))
    {
      if IsLastAsked(rows', next, end, j) { assert AskedIn(rows, i, end, j); }
    }
    if !Is200(rows, i) { assert AskedIn(rows, i, end, i); }
  }

  lemma FailedStep(p: Poll, i: int, end: int, answer: int -> Answer, fast: bool)
    requires i < end && p.cut == Through
    ensures var rows, rows' := p.fetched.rows, Forwarded(p, i, answer(i), fast).fetched.rows;
      && (NoneAsked(rows, i, end) <==> Is200(rows, i) && NoneAsked(rows', i + 1, end))
      && (LastFailed(rows, i, end, answer)
          <==> LastFailed(rows', i + 1, end, answer) || (NoneAsked(rows', i + 1, end) && !Is200(rows, i) && answer(i) == Code(500)))
  {
    var rows, rows' := p.fetched.rows, Forwarded(p, i, answer(i), fast).fetched.rows;
    forall j ensures AskedIn(rows, i, end, j) <==> (j == i && !Is200(rows, i)) || AskedIn(rows', i + 1, end, j) {
      AskedLater(p, i, end, answer, fast, j);
    }
    LastAskedStep(rows, rows', i, i + 1, end);
    if NoneAsked(rows', i + 1, end) && !Is200(rows, i) { assert IsLastAsked(rows, i, end, i); }
  }

  lemma {:induction false} ForwardFailed(p: Poll, i: int, end: int, answer: int -> Answer, fast: bool)
    requires p.cut == Through && Forward(p, i, end, answer, fast).cut == Through
    ensures Forward(p, i, end, answer, fast).is500
      <==> LastFailed(p.fetched.rows, i, end, answer) || (NoneAsked(p.fetched.rows, i, end) && p.is500)
    decreases end - i
  {
    if i < end {
      FailedStep(p, i, end, answer, fast);
      ForwardFailed(Forwarded(p, i, answer(i), fast), i + 1, end, answer, fast);
    }
  }

  /** The caller is told of no response, of a 403 or of a slow-down only if one came to what was asked for, and of none of them only if
      none came; and after a whole poll that the last chunk asked for from the list was answered 500. */
  lemma PollTells(r: Recorder, l: Listing, answer: int -> Answer, c: Setting)
    requires l.formats != []
    ensures var p := Fetching(r, l, answer, c);
      && IsCause(p.cut, Polled(r, l, answer, c).fetched.requested, answer)
      && (p.cut == Through ==> forall j :: Asks(r, l, answer, c, j) ==> answer(j) != NoAnswer && answer(j) != Code(403))
      && (p.cut == Through ==> (p.is500 <==> LastFailed(r.fetched.rows, l.seqNo, End(l), answer)))
  {
    var b, p := AfterBack(r, l, answer, c), Fetching(r, l, answer, c);
    BackCause(Started(r.fetched), l.seqNo - 1, answer);
    if b.cut == Through {
      ForwardCause(b, l.seqNo, End(l), answer, Restored(r, l, c));
    } else {
      assert p == b;
    }
    if p.cut == Through {
      forall j | Asks(r, l, answer, c, j) ensures answer(j) != NoAnswer && answer(j) != Code(403) {
        AskedAnswers(r, l, answer, c, j);
      }
      ForwardFailed(b, l.seqNo, End(l), answer, Restored(r, l, c));
      forall j ensures AskedIn(b.fetched.rows, l.seqNo, End(l), j) <==> AskedIn(r.fetched.rows, l.seqNo, End(l), j) {
        SameMisses(r, l, answer, c, j);
      }
    }
  }

  // ---------- What the next poll is spared ----------

  lemma {:induction false} ForwardSpared(p: Poll, i: int, end: int, a: int -> Answer, b: int -> Answer, fast: bool)
    requires forall j :: AskedIn(p.fetched.rows, i, end, j) ==> a(j) == b(j)
    ensures Forward(p, i, end, a, fast) == Forward(p, i, end, b, fast)
    decreases end - i
  {
    if i < end && p.cut == Through {
      assert !Is200(p.fetched.rows, i) ==> AskedIn(p.fetched.rows, i, end, i);
      assert Forwarded(p, i, a(i), fast) == Forwarded(p, i, b(i), fast);
      var q := Forwarded(p, i, a(i), fast);
      forall j | AskedIn(q.fetched.rows, i + 1, end, j) ensures a(j) == b(j) {
        AskedLater(p, i, end, a, fast, j);
      }
      ForwardSpared(q, i + 1, end, a, b, fast);
    }
  }

  /** A live poll whose list starts directly above a mark does not go back, and no poll asks for what it knows: its result depends on
      no other answer. */
  lemma Spared(r: Recorder, l: Listing, a: int -> Answer, b: int -> Answer, c: Setting)
    requires l.seqNo == 0 || StopsAt(r.fetched.rows, l.seqNo - 1)
    requires forall j :: AsksListed(r.fetched.rows, l, j) ==> a(j) == b(j)
    ensures Polled(r, l, a, c) == Polled(r, l, b, c)
  {
    assert AfterBack(r, l, a, c) == AfterBack(r, l, b, c) == Started(r.fetched);
    forall j | AskedIn(r.fetched.rows, l.seqNo, End(l), j) ensures a(j) == b(j) {
      assert AsksListed(r.fetched.rows, l, j);
    }
    ForwardSpared(Started(r.fetched), l.seqNo, End(l), a, b, Restored(r, l, c));
  }

  /** So of two polls the second asks for nothing that the first has marked, or has got from its own list: where the second list starts
      right behind a number in the span of the first, or inside that span, only numbers above are asked for. */
  lemma NextPollSpared(r: Recorder, first: Listing, answer: int -> Answer, low: int, high: int, second: Listing, a: int -> Answer, b: int -> Answer, c: Setting)
    requires Completes(r, first, answer, c) && IsWholeSpan(r, first, answer, c, low, high) && high > 0 && low < 2147483647
    requires low <= second.seqNo - 1 <= high && second.seqNo - 1 >= first.seqNo - 100
    requires var s := Polled(r, first, answer, c);
      forall j :: AsksListed(s.fetched.rows, second, j) ==> a(j) == b(j)
    ensures var s := Polled(r, first, answer, c); Polled(s, second, a, c) == Polled(s, second, b, c)
  {
    PollMarks(r, first, answer, c, low, high, second.seqNo - 1);
    Spared(Polled(r, first, answer, c), second, a, b, c);
  }

  // ---------- Slowed down ----------

  /** In timeshift a chunk 0 that is answered 500 while sped up cuts the poll short and slows the recording down; the first list that
      starts between 1 and 9 restores the speed. */
  lemma SlowsDown(r: Recorder, l: Listing, answer: int -> Answer, c: Setting)
    requires c.timeshift && l.seqNo == 0 && l.formats != [] && r.fast && !Is200(r.fetched.rows, 0) && answer(0) == Code(500)
    ensures !Completes(r, l, answer, c) && !Polled(r, l, answer, c).fast
    ensures Polled(r, l, answer, c).fetched == r.fetched.(requested := r.fetched.requested + {0}, failed := r.fetched.failed + {0})
  {
    var p := Forwarded(Started(r.fetched), 0, Code(500), true);
    assert Forward(p, 1, End(l), answer, true) == p;
  }

  lemma SpeedsUp(r: Recorder, l: Listing, answer: int -> Answer, c: Setting)
    requires c.timeshift && 1 <= l.seqNo <= 9 && l.formats != []
    ensures Polled(r, l, answer, c).fast == c.fast
  {
    NeverSlowed(Started(r.fetched), l.seqNo, End(l), answer, Restored(r, l, c));
  }

  lemma {:induction false} NeverSlowed(p: Poll, i: int, end: int, answer: int -> Answer, fast: bool)
    requires i > 0 && p.cut != Slowed
    ensures Forward(p, i, end, answer, fast).cut != Slowed
    decreases end - i
  {
    if i < end && p.cut == Through { NeverSlowed(Forwarded(p, i, answer(i), fast), i + 1, end, answer, fast); }
  }

  // ---------- The address format ----------

  /** The format is taken to have changed exactly if two listed addresses differ, or one differs from an earlier one. */
  lemma {:induction false} FormatChanges(f: Format, texts: seq<string>)
    requires !f.changed && "" !in texts
    ensures SeenAll(f, texts).changed
      <==> exists i, j :: 0 <= i < |texts| && 0 <= j < |texts| && (texts[i] != texts[j] || (f.text != "" && texts[i] != f.text))
    decreases |texts|
  {
    if texts != [] {
      var g := Seen(f, texts[0]);
      if g.changed {
        ChangedStays(g, texts[1..]);
      } else {
        FormatChanges(g, texts[1..]);
        assert forall i :: 0 < i < |texts| ==> texts[i] == texts[1..][i - 1];
        if SeenAll(g, texts[1..]).changed {
          var i, j :| 0 <= i < |texts[1..]| && 0 <= j < |texts[1..]|
            && (texts[1..][i] != texts[1..][j] || (g.text != "" && texts[1..][i] != g.text));
          assert texts[1..][i] == texts[i + 1] && texts[1..][j] == texts[j + 1];
        }
      }
    }
  }

  lemma {:induction false} ChangedStays(f: Format, texts: seq<string>)
    requires f.changed
    ensures SeenAll(f, texts) == f
    decreases |texts|
  {
    if texts != [] { ChangedStays(f, texts[1..]); }
  }
}
