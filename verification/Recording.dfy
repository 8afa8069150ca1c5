/** From the bytes of a stream to the file: what a peer sends as audio, video and aggregates is what is recorded. */
module Recording {
  import opened Bytes
  import opened AmfValues
  import opened Chunk
  import opened ChunkStream
  import opened Reception
  import opened Recorded
  import opened Session
  import opened Tracks
  import opened Rtmp
  import Flv

  /** A message as sent; an aggregate is made of `tags`. */
  datatype Item = Item(o: Outgoing, tags: seq<Flv.Tag>)

  predicate IsAggregate(x: Item) {
    x.o.m.typeId == 22 && x.o.m.body == Flv.TagsBytes(x.tags) && forall t :: t in x.tags ==> Flv.Fits(t)
  }

  /** Audio, video, or an aggregate. */
  predicate IsMediaItem(x: Item) {
    x.o.m.typeId == 8 || x.o.m.typeId == 9 || IsAggregate(x)
  }

  function PayloadOf(x: Item): Payload
    requires IsMediaItem(x)
  {
    if x.o.m.typeId == 8 || x.o.m.typeId == 9 then Payload.Media(x.o.m.body) else Payload.Parts(Flv.SubsOf(x.tags))
  }

  /** What the message is to the recording: its content at its time, counted from where the recording started. */
  function EventOf(x: Item, start: nat): Event
    requires IsMediaItem(x)
  {
    if x.o.m.typeId == 8 || x.o.m.typeId == 9 then Event.Media(x.o.m.typeId, x.o.m.ts + start, x.o.m.body)
    else Event.Parts(x.o.m.ts + start, Flv.SubsOf(x.tags))
  }

  predicate AreMedia(items: seq<Item>, start: nat, fix: bool) {
    forall x :: x in items ==> IsMediaItem(x) && IsAccepted(EventOf(x, start), fix)
  }

  function EventsOf(items: seq<Item>, start: nat, fix: bool): (es: seq<(Event, bool)>)
    requires AreMedia(items, start, fix)
    ensures |es| == |items| && forall i :: 0 <= i < |items| ==> es[i] == (EventOf(items[i], start), fix)
  {
    if items == [] then [] else [(EventOf(items[0], start), fix)] + EventsOf(items[1..], start, fix)
  }

  function BytesOf(x: Item, mem: SentTable, csz: nat): Data
    requires csz > 0 && Legal(x.o, mem)
  {
    MessageBytes(x.o.form, x.o.m, x.o.fmt, DeltaOf(x.o.m, x.o.fmt, PrevSent(x.o, mem)), csz)
  }

  /** The bytes are these items, one after the other, each as its sender may send it. */
  predicate Arrive(bytes: Data, items: seq<Item>, mem: SentTable, csz: nat)
    requires csz > 0
    decreases |items|
  {
    if items == [] then bytes == []
    else
      && Legal(items[0].o, mem)
      && BytesOf(items[0], mem, csz) <= bytes
      && Arrive(bytes[|BytesOf(items[0], mem, csz)|..], items[1..], Remember(items[0].o, mem), csz)
  }

  /** The receiver at `a` has these items before it, and knows what their sender does. */
  predicate Before(a: Place, items: seq<Item>, mem: SentTable, csz: nat)
    requires csz > 0
  {
    Arrive(a.rest, items, mem, csz) && a.memory.csz == csz && Knows(a.info, mem)
  }

  /** The bytes begin with the message, and `tail` is left behind it. */
  predicate IsOne(bytes: Data, m: OutMsg, payload: Payload, csz: nat, info: InfoTable, tail: Data) {
    var p := DecodedOne(bytes, csz, info);
    p.Ok? && p.rest == tail && p.value.ts == m.ts && p.value.typeId == m.typeId && p.value.payload == payload
  }

  lemma KnowsCsid(o: Outgoing, mem: SentTable, info: InfoTable)
    requires Legal(o, mem) && Knows(info, mem)
    ensures ReadIn(o.form, o.m.csid) == o.m.csid
    ensures o.fmt > 0 ==> o.m.csid in info && Matches(info[o.m.csid], PrevSent(o, mem))
  {
  }

  lemma ItemPayload(x: Item, mem: SentTable, csz: nat, info: InfoTable, tail: Data)
    requires csz > 0 && Legal(x.o, mem) && Knows(info, mem) && IsMediaItem(x)
    ensures IsOne(BytesOf(x, mem, csz) + tail, x.o.m, PayloadOf(x), csz, info, tail)
  {
    KnowsCsid(x.o, mem, info);
    if x.o.m.typeId == 8 || x.o.m.typeId == 9 {
      MediaReceived(x.o.form, x.o.m, x.o.fmt, PrevSent(x.o, mem), csz, info, tail);
    } else {
      AggregateReceived(x.o.form, x.o.m, x.o.fmt, PrevSent(x.o, mem), csz, info, tail, x.tags);
    }
  }

  lemma ItemInfo(x: Item, mem: SentTable, csz: nat, info: InfoTable, tail: Data)
    requires csz > 0 && Legal(x.o, mem) && Knows(info, mem)
    ensures Knows(InfoAfter(BytesOf(x, mem, csz) + tail, info), Remember(x.o, mem))
  {
    KnowsCsid(x.o, mem, info);
    var n, i := MessageReceived(x.o.form, x.o.m, x.o.fmt, PrevSent(x.o, mem), csz, info, tail);
    KnowsMore(info, mem, x.o.m.csid, i, SentOf(x.o.m, DeltaOf(x.o.m, x.o.fmt, PrevSent(x.o, mem))));
  }

  lemma KnowsMore(info: InfoTable, mem: SentTable, c: nat, i: ChunkInfo, sent: Sent)
    requires Knows(info, mem) && Matches(i, sent)
    ensures Knows(info[c := i], mem[c := sent])
  {
  }

  lemma FirstArrives(bytes: Data, items: seq<Item>, mem: SentTable, csz: nat) returns (tail: Data)
    requires csz > 0 && items != [] && Arrive(bytes, items, mem, csz)
    ensures Legal(items[0].o, mem) && bytes == BytesOf(items[0], mem, csz) + tail
    ensures Arrive(tail, items[1..], Remember(items[0].o, mem), csz)
  {
    var first := BytesOf(items[0], mem, csz);
    tail := bytes[|first|..];
    Behind(first, bytes);
  }

  lemma Behind(first: Data, bytes: Data)
    requires first <= bytes
    ensures bytes == first + bytes[|first|..]
  {
  }

  lemma ItemReceived(bytes: Data, items: seq<Item>, mem: SentTable, csz: nat, info: InfoTable) returns (tail: Data)
    requires csz > 0 && items != [] && Arrive(bytes, items, mem, csz) && Knows(info, mem) && IsMediaItem(items[0])
    ensures IsOne(bytes, items[0].o.m, PayloadOf(items[0]), csz, info, tail)
    ensures Arrive(tail, items[1..], Remember(items[0].o, mem), csz) && Knows(InfoAfter(bytes, info), Remember(items[0].o, mem))
  {
    tail := FirstArrives(bytes, items, mem, csz);
    ItemPayload(items[0], mem, csz, info, tail);
    ItemInfo(items[0], mem, csz, info, tail);
  }

  /** The first item is received as the event it is, and leaves the receiver before the others. */
  lemma NextBefore(s: Setup, a: Place, x: Entry, b: Place, items: seq<Item>, mem: SentTable, csz: nat)
    requires csz > 0 && items != [] && Before(a, items, mem, csz) && IsMediaItem(items[0]) && IsAccepted(EventOf(items[0], s.startTime), s.fix)
    requires Comes(s, ForEnd, a, x, b)
    ensures Before(b, items[1..], Remember(items[0].o, mem), csz)
    ensures x.event == EventOf(items[0], s.startTime) && x.end == Handled
  {
    var tail := ItemReceived(a.rest, items, mem, csz, a.info);
    MediaFollows(s, a, x, b, items[0]);
  }

  lemma MediaFollows(s: Setup, a: Place, x: Entry, b: Place, item: Item)
    requires IsMediaItem(item) && IsAccepted(EventOf(item, s.startTime), s.fix)
    requires Follows(s, ForEnd, a, x, b) && x.m.ts == item.o.m.ts && x.m.typeId == item.o.m.typeId && x.m.payload == PayloadOf(item)
    ensures x.event == EventOf(item, s.startTime) && x.end == Handled && b.memory.csz == a.memory.csz
  {
  }

  lemma StreamComes(s: Setup, places: seq<Place>, log: seq<Entry>, k: nat)
    requires IsStream(s, ForEnd, places, log) && k < |log|
    ensures Comes(s, ForEnd, places[k], log[k], places[k + 1])
  {
    ChainAt(Link(s, ForEnd), places, log, k);
  }

  lemma StreamFurther(s: Setup, places: seq<Place>, log: seq<Entry>, items: seq<Item>, before: SentTable, csz: nat, n: nat) returns (mem: SentTable)
    requires csz > 0 && IsStream(s, ForEnd, places, log) && AreMedia(items, s.startTime, s.fix) && 0 < n <= |items| && n <= |log|
    requires Before(places[n - 1], items[n - 1..], before, csz) && Follow(log, items, s.startTime, s.fix, n - 1)
    ensures Before(places[n], items[n..], mem, csz) && Follow(log, items, s.startTime, s.fix, n)
  {
    StreamComes(s, places, log, n - 1);
    mem := OneFurther(s, places[n - 1], log, places[n], items, before, csz, n);
  }

  /** After `n` messages the receiver stands before the others. */
  lemma {:induction false} AfterSome(s: Setup, places: seq<Place>, log: seq<Entry>, items: seq<Item>, csz: nat, n: nat) returns (mem: SentTable)
    requires csz > 0 && IsStream(s, ForEnd, places, log) && Before(places[0], items, map[], csz) && AreMedia(items, s.startTime, s.fix)
    requires n <= |log| && n <= |items|
    ensures Before(places[n], items[n..], mem, csz) && Follow(log, items, s.startTime, s.fix, n)
    decreases n
  {
    if n == 0 {
      mem := map[];
      AtFirst(places[0], items, csz);
    } else {
      var before := AfterSome(s, places, log, items, csz, n - 1);
      mem := StreamFurther(s, places, log, items, before, csz, n);
    }
  }

  /** The first `n` messages are the events of the first `n` items, and each leaves the receiver waiting. */
  ghost predicate Follow(log: seq<Entry>, items: seq<Item>, start: nat, fix: bool, n: nat)
    requires n <= |log| && n <= |items| && AreMedia(items, start, fix)
  {
    forall k :: 0 <= k < n ==> log[k].event == EventsOf(items, start, fix)[k].0 && log[k].end == Handled
  }

  lemma FollowMore(log: seq<Entry>, items: seq<Item>, start: nat, fix: bool, n: nat)
    requires n < |log| && n < |items| && AreMedia(items, start, fix) && Follow(log, items, start, fix, n)
    requires items[n] in items && log[n].event == EventOf(items[n], start) && log[n].end == Handled
    ensures Follow(log, items, start, fix, n + 1)
  {
  }

  lemma OneFurther(s: Setup, a: Place, log: seq<Entry>, b: Place, items: seq<Item>, before: SentTable, csz: nat, n: nat) returns (mem: SentTable)
    requires csz > 0 && 0 < n <= |items| && n <= |log| && AreMedia(items, s.startTime, s.fix)
    requires Before(a, items[n - 1..], before, csz) && Comes(s, ForEnd, a, log[n - 1], b) && Follow(log, items, s.startTime, s.fix, n - 1)
    ensures Before(b, items[n..], mem, csz) && Follow(log, items, s.startTime, s.fix, n)
  {
    var rest := items[n - 1..];
    assert rest[0] == items[n - 1] && items[n - 1] in items;
    NextBefore(s, a, log[n - 1], b, rest, before, csz);
    mem := Remember(rest[0].o, before);
    assert rest[1..] == items[n..];
    FollowMore(log, items, s.startTime, s.fix, n - 1);
  }

  lemma AtFirst(a: Place, items: seq<Item>, csz: nat)
    requires csz > 0 && Before(a, items, map[], csz)
    ensures Before(a, items[0..], map[], csz)
  {
    assert items[0..] == items;
  }

  lemma ComesReads(s: Setup, a: Place, x: Entry, b: Place)
    requires Comes(s, ForEnd, a, x, b)
    ensures a.rest != []
  {
  }

  lemma NoMoreThanSent(s: Setup, places: seq<Place>, log: seq<Entry>, items: seq<Item>, csz: nat)
    requires csz > 0 && IsStream(s, ForEnd, places, log) && Before(places[0], items, map[], csz) && AreMedia(items, s.startTime, s.fix)
    ensures |log| <= |items|
  {
    if |log| > |items| {
      var n := |items|;
      StreamComes(s, places, log, n);
      ComesReads(s, places[n], log[n], places[n + 1]);
      var mem := AfterSome(s, places, log, items, csz, n);
    }
  }

  lemma EmptyUnreadable(a: Place, o: Outcome)
    requires a.rest == [] && Unreadable(a, o)
    ensures o == Error(ShortRead)
  {
    assert DecodedHeader([], NoMsg) == Err(ShortRead);
    assert Started([], a.info) == Err(ShortRead);
  }

  lemma FirstReadable(a: Place, items: seq<Item>, mem: SentTable, csz: nat, o: Outcome)
    requires csz > 0 && items != [] && Before(a, items, mem, csz) && IsMediaItem(items[0])
    ensures !Unreadable(a, o)
  {
    var tail := ItemReceived(a.rest, items, mem, csz, a.info);
  }

  lemma AllWait(log: seq<Entry>, items: seq<Item>, start: nat, fix: bool)
    requires |log| <= |items| && AreMedia(items, start, fix) && Follow(log, items, start, fix, |log|)
    ensures Waits(log)
  {
  }

  lemma SameEvents(log: seq<Entry>, items: seq<Item>, start: nat, fix: bool)
    requires |log| == |items| && AreMedia(items, start, fix) && Follow(log, items, start, fix, |log|)
    ensures Events(log, fix) == EventsOf(items, start, fix)
  {
  }

  /** All of the items are received, in order, and then the end of the stream. */
  lemma AllReceived(s: Setup, places: seq<Place>, log: seq<Entry>, items: seq<Item>, csz: nat, o: Outcome)
    requires IsStream(s, ForEnd, places, log) && EndsAs(places, log, o)
    requires csz > 0 && Before(places[0], items, map[], csz) && AreMedia(items, s.startTime, s.fix)
    ensures o == Error(ShortRead) && Events(log, s.fix) == EventsOf(items, s.startTime, s.fix)
  {
    NoMoreThanSent(s, places, log, items, csz);
    var n := |log|;
    var mem := AfterSome(s, places, log, items, csz, n);
    AllWait(log, items, s.startTime, s.fix);
    if n < |items| {
      assert items[n..][0] == items[n] && items[n] in items;
      FirstReadable(places[n], items[n..], mem, csz, o);
    } else {
      NoneLeft(places[n], items, mem, csz);
      EmptyUnreadable(places[n], o);
      SameEvents(log, items, s.startTime, s.fix);
    }
  }

  lemma NoneLeft(a: Place, items: seq<Item>, mem: SentTable, csz: nat)
    requires csz > 0 && Before(a, items[|items|..], mem, csz)
    ensures a.rest == []
  {
    assert items[|items|..] == [];
  }

  /** What the file holds in the end, from what the loop has kept. */
  lemma WhatIsKept(s: Setup, places: seq<Place>, log: seq<Entry>, items: seq<Item>, csz: nat, o: Outcome)
    requires IsStream(s, ForEnd, places, log) && EndsAs(places, log, o)
    requires csz > 0 && Before(places[0], items, map[], csz) && AreMedia(items, s.startTime, s.fix)
    ensures o == Error(ShortRead)
    ensures Records(RunOffers(Events(log, s.fix))) == Kept(Apart(EventsOf(items, s.startTime, s.fix)))
  {
    AllReceived(s, places, log, items, csz, o);
    var es := EventsOf(items, s.startTime, s.fix);
    FileHolds(es);
    RunWritesRecords(es);
  }

  /** Recording on a fresh file what a peer sends until the stream ends: whatever chunk streams, header types and chunks carry it, the
      file holds exactly the audio and video messages, and parts of aggregates, that are later than every earlier one of their kind. */
  method Record(c: Connection, rdr: Reader, ghost items: seq<Item>) returns (o: Outcome)
    requires c.Valid() && rdr.Valid() && c.Media() == Fresh && c.chunkSizeRecv > 0
    requires Arrive(rdr.Rest(), items, map[], c.chunkSizeRecv) && AreMedia(items, c.startTime, c.fixAggrTimestamp)
    modifies c, c.table, c.flv, rdr
    ensures o == Error(ShortRead) && c.Valid() && c.Config() == old(c.Config())
    ensures AreMedia(items, c.startTime, c.fixAggrTimestamp)
    ensures c.tags == Kept(Apart(EventsOf(items, c.startTime, c.fixAggrTimestamp))) && c.flv.file == Flv.FileBytes(c.tags)
  {
    ghost var csz, places, log := c.chunkSizeRecv, [], [];
    o, places, log := c.Wait(rdr, ForEnd);
    WhatIsKept(c.Config(), places, log, items, csz, o);
  }
}
