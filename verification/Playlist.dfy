/** One poll of a media playlist: it goes back for older chunks, fetches the listed ones, and then marks where the next
    poll may stop going back. The answers of the server are inputs. */
module Playlist {
  import opened MemDb

  const MaxInt32 := 2147483647

  /** What came back for a chunk: no response at all, or a status code. */
  datatype Answer = NoAnswer | Code(code: int)

  /** The index, and every sequence number asked for, answered 404, stored, or answered 500 so far. */
  datatype Fetched = Fetched(rows: Rows, requested: set<int>, missing: set<int>, stored: set<int>, failed: set<int>)

  const Empty := Fetched(map[], {}, {}, {}, {})

  datatype Cut = Through | Broken | Forbidden | Slowed

  predicate Stops(a: Answer) {
    a == NoAnswer || a == Code(403)
  }

  function CutBy(a: Answer): Cut {
    if a == NoAnswer then Broken else if a == Code(403) then Forbidden else Through
  }

  /** Any status but 403, 404 and 500 counts as the chunk, and is stored. */
  function Saved(x: Fetched, n: int, a: Answer): Fetched {
    var asked := x.(requested := x.requested + {n});
    if Stops(a) then asked
    else if a == Code(500) then asked.(failed := x.failed + {n})
    else if a == Code(404) then asked.(rows := Put404(x.rows, n), missing := x.missing + {n})
    else asked.(rows := Put200(x.rows, n), stored := x.stored + {n})
  }

  /** A poll under way: what is fetched, the lowest and highest number to mark, whether a listed chunk was missing,
      whether the last answer for one was 500, and what has cut the poll short. */
  datatype Poll = Poll(fetched: Fetched, minSeq: int, maxSeq: int, found404: bool, is500: bool, cut: Cut)

  function Started(x: Fetched): Poll {
    Poll(x, MaxInt32, -1, false, false, Through)
  }

  function WentBack(p: Poll, i: int, a: Answer): Poll {
    var y := Saved(p.fetched, i, a);
    if Stops(a) then p.(fetched := y, cut := CutBy(a))
    else p.(fetched := y, minSeq := if i < p.minSeq then i else p.minSeq, maxSeq := if i > p.maxSeq then i else p.maxSeq)
  }

  function Back(p: Poll, i: int, answer: int -> Answer): Poll
    decreases i + 1
  {
    if i < 0 || StopsAt(p.fetched.rows, i) then p
    else if Stops(answer(i)) || answer(i) == Code(404) then WentBack(p, i, answer(i))
    else Back(WentBack(p, i, answer(i)), i - 1, answer)
  }

  /** A listed chunk that is not known to be there is fetched. */
  function Forwarded(p: Poll, i: int, a: Answer, fast: bool): Poll {
    if Is200(p.fetched.rows, i) then p
    else
      var y := Saved(p.fetched, i, a);
      var found := p.found404 || a == Code(404);
      if Stops(a) then p.(fetched := y, is500 := false, cut := CutBy(a))
      else if a == Code(500) && fast && i == 0 then p.(fetched := y, is500 := true, cut := Slowed)
      else Poll(y, if i < p.minSeq then i else p.minSeq, if found then p.maxSeq else i, found, a == Code(500), Through)
  }

  function Forward(p: Poll, i: int, end: int, answer: int -> Answer, fast: bool): Poll
    decreases end - i
  {
    if i >= end || p.cut != Through then p else Forward(Forwarded(p, i, answer(i), fast), i + 1, end, answer, fast)
  }

  function Marked(rows: Rows, low: int, high: int): Rows
    decreases high - low
  {
    if low > high then rows else Marked(PutStop(rows, low), low + 1, high)
  }

  function Closed(rows: Rows, minSeq: int, maxSeq: int, seqNo: int): Rows {
    if minSeq != MaxInt32 && maxSeq > 0 then Deleted(Marked(rows, minSeq, maxSeq), seqNo) else rows
  }

  function Finished(p: Poll, seqNo: int): Fetched {
    p.fetched.(rows := Closed(p.fetched.rows, p.minSeq, p.maxSeq, seqNo))
  }

  /** The shape of the chunk addresses seen so far, and whether it has changed. */
  datatype Format = Format(text: string, changed: bool)

  function Seen(f: Format, text: string): Format {
    if f.changed then f
    else if f.text == "" then f.(text := text)
    else if f.text != text then f.(changed := true)
    else f
  }

  function SeenAll(f: Format, texts: seq<string>): Format
    decreases |texts|
  {
    if texts == [] then f else SeenAll(Seen(f, texts[0]), texts[1..])
  }

  /** `fast` is off while the recording is slowed down for a chunk 0 that was answered 500. */
  datatype Recorder = Recorder(fetched: Fetched, format: Format, fast: bool)
  datatype Setting = Setting(timeshift: bool, fast: bool)

  /** The first listed number, the address format of each listed chunk, in order, and whether the list is the last one: it
      says so itself, or in timeshift hardly any time is left behind it. */
  datatype Listing = Listing(seqNo: nat, formats: seq<string>, last: bool)

  function End(l: Listing): int {
    l.seqNo + |l.formats|
  }

  function Restored(r: Recorder, l: Listing, c: Setting): bool {
    if c.timeshift && 0 < l.seqNo < 10 then c.fast else r.fast
  }

  function AfterBack(r: Recorder, l: Listing, answer: int -> Answer, c: Setting): Poll {
    if !c.timeshift && !SeenAll(r.format, l.formats).changed then Back(Started(r.fetched), l.seqNo - 1, answer)
    else Started(r.fetched)
  }

  /** The poll up to the marks, and the whole of it. A list without chunks is ignored. */
  function Fetching(r: Recorder, l: Listing, answer: int -> Answer, c: Setting): Poll {
    Forward(AfterBack(r, l, answer, c), l.seqNo, End(l), answer, Restored(r, l, c))
  }

  function Polled(r: Recorder, l: Listing, answer: int -> Answer, c: Setting): Recorder {
    if l.formats == [] then r
    else
      var p := Fetching(r, l, answer, c);
      Recorder(if p.cut == Through then Finished(p, l.seqNo) else p.fetched,
               if c.timeshift then r.format else SeenAll(r.format, l.formats),
               if AfterBack(r, l, answer, c).cut == Through then p.cut != Slowed && Restored(r, l, c) else r.fast)
  }

  predicate Completes(r: Recorder, l: Listing, answer: int -> Answer, c: Setting) {
    l.formats != [] && Fetching(r, l, answer, c).cut == Through
  }

  /** The fields of the recorder that a poll reads and writes. */
  class Poller {
    const index: Index
    const setting: Setting
    var format: Format
    var fast: bool
    var seqNo: nat
    ghost var past: Fetched

    constructor (setting: Setting)
      ensures Value() == Recorder(Empty, Format("", false), setting.fast) && this.setting == setting
      ensures fresh(index)
    {
      index := new Index();
      this.setting := setting;
      format, fast, seqNo := Format("", false), setting.fast, 0;
      past := Empty;
    }

    ghost function Chunks(): Fetched
      reads this, index
    {
      past.(rows := index.rows)
    }

    ghost function Value(): Recorder
      reads this, index
    {
      Recorder(Chunks(), format, fast)
    }

    /** Every start of the playlist goroutine forgets the address format. */
    method StartPlaylist()
      modifies this`format, this`seqNo
      ensures Value() == old(Value()).(format := Format("", false))
    {
      format, seqNo := Format("", false), 0;
    }

    method SaveMedia(n: int, a: Answer) returns (cut: Cut, is404: bool, is500: bool)
      modifies this`past, index
      ensures Chunks() == Saved(old(Chunks()), n, a)
      ensures cut == CutBy(a) && is404 == (a == Code(404)) && is500 == (a == Code(500))
    {
      past := Saved(Chunks(), n, a);
      cut, is404, is500 := Through, false, false;
      match a
      case NoAnswer => cut := Broken;
      case Code(c) =>
        if c == 403 {
          cut := Forbidden;
        } else if c == 404 {
          index.Set404(n);
          is404 := true;
        } else if c == 500 {
          is500 := true;
        } else {
          index.Set200(n);
        }
    }

    /** The loop that goes back until a mark, a missing chunk or chunk 0. */
    method GoBack(answer: int -> Answer) returns (minSeq: int, maxSeq: int, cut: Cut)
      modifies this`past, index
      ensures Poll(Chunks(), minSeq, maxSeq, false, false, cut) == Back(Started(old(Chunks())), seqNo - 1, answer)
    {
      minSeq, maxSeq, cut := MaxInt32, -1, Through;
      var i: int := seqNo - 1;
      while i >= 0
        invariant i >= -1 && cut == Through
        invariant Back(Poll(Chunks(), minSeq, maxSeq, false, false, Through), i, answer)
               == Back(Started(old(Chunks())), seqNo - 1, answer)
      {
        var stop := index.GetStopBack(i);
        if stop {
          break;
        }
        var c, is404, _ := SaveMedia(i, answer(i));
        cut := c;
        if cut != Through {
          return;
        }
        if i > maxSeq { maxSeq := i; }
        if i < minSeq { minSeq := i; }
        if is404 {
          return;
        }
        i := i - 1;
      }
    }

    /** One listed chunk, with the numbers and flags of the poll so far. */
    method ForwardOne(i: int, a: Answer, low: int, high: int, missed: bool, slow: bool)
      returns (minSeq: int, maxSeq: int, found404: bool, is500: bool, cut: Cut)
      modifies this`past, this`fast, index
      ensures Poll(Chunks(), minSeq, maxSeq, found404, is500, cut)
           == Forwarded(Poll(old(Chunks()), low, high, missed, slow, Through), i, a, old(fast))
      ensures fast == (old(fast) && cut != Slowed)
    {
      minSeq, maxSeq, found404, is500, cut := low, high, missed, slow, Through;
      var known := index.Check200(i);
      if !known {
        var is404;
        cut, is404, is500 := SaveMedia(i, a);
        if cut != Through {
          return;
        }
        if is404 { found404 := true; }
        if is500 && fast && i == 0 {
          cut, fast := Slowed, false;
          return;
        }
        if i < minSeq { minSeq := i; }
        if !found404 { maxSeq := i; }
      }
    }

    /** The loop over the listed chunks; it goes on with the numbers that going back has left. */
    method GoForward(n: nat, answer: int -> Answer, low: int, high: int)
      returns (minSeq: int, maxSeq: int, found404: bool, is500: bool, cut: Cut)
      modifies this`past, this`fast, index
      ensures Poll(Chunks(), minSeq, maxSeq, found404, is500, cut)
           == Forward(Poll(old(Chunks()), low, high, false, false, Through), seqNo, seqNo + n, answer, old(fast))
      ensures fast == (old(fast) && cut != Slowed)
    {
      minSeq, maxSeq, found404, is500, cut := low, high, false, false, Through;
      var k := 0;
      while k < n && cut == Through
        invariant k <= n && fast == (old(fast) && cut != Slowed)
        invariant Forward(Poll(Chunks(), minSeq, maxSeq, found404, is500, cut), seqNo + k, seqNo + n, answer, old(fast))
               == Forward(Poll(old(Chunks()), low, high, false, false, Through), seqNo, seqNo + n, answer, old(fast))
      {
        minSeq, maxSeq, found404, is500, cut := ForwardOne(seqNo + k, answer(seqNo + k), minSeq, maxSeq, found404, is500);
        k := k + 1;
      }
    }

    method Close(minSeq: int, maxSeq: int)
      modifies index
      ensures index.rows == Closed(old(index.rows), minSeq, maxSeq, seqNo)
    {
      if minSeq != MaxInt32 && maxSeq > 0 {
        var i := minSeq;
        while i <= maxSeq
          invariant Marked(index.rows, i, maxSeq) == Marked(old(index.rows), minSeq, maxSeq)
        {
          index.SetStopBack(i);
          i := i + 1;
        }
        index.Delete(seqNo);
      }
    }

    method See(formats: seq<string>)
      modifies this`format
      ensures format == SeenAll(old(format), formats)
    {
      for k := 0 to |formats|
        invariant SeenAll(format, formats[k..]) == SeenAll(old(format), formats)
      {
        assert formats[k..][0] == formats[k] && formats[k..][1..] == formats[k + 1..];
        if !format.changed {
          if format.text == "" {
            format := format.(text := formats[k]);
          } else if format.text != formats[k] {
            format := format.(changed := true);
          }
        }
      }
      assert formats[|formats|..] == [];
    }

    /** A poll up to the marks. */
    method Fetch(l: Listing, answer: int -> Answer)
      returns (minSeq: int, maxSeq: int, found404: bool, is500: bool, cut: Cut)
      requires seqNo == l.seqNo
      modifies this`format, this`fast, this`past, index
      ensures Poll(Chunks(), minSeq, maxSeq, found404, is500, cut) == Fetching(old(Value()), l, answer, setting)
      ensures format == if setting.timeshift then old(format) else SeenAll(old(format), l.formats)
      ensures fast == if AfterBack(old(Value()), l, answer, setting).cut == Through
                      then cut != Slowed && Restored(old(Value()), l, setting) else old(fast)
    {
      minSeq, maxSeq, found404, is500, cut := MaxInt32, -1, false, false, Through;
      if !setting.timeshift {
        See(l.formats);
      }
      if !setting.timeshift && !format.changed {
        minSeq, maxSeq, cut := GoBack(answer);
        if cut != Through {
          return;
        }
      }
      if setting.timeshift && 0 < seqNo < 10 {
        fast := setting.fast;
      }
      minSeq, maxSeq, found404, is500, cut := GoForward(|l.formats|, answer, minSeq, maxSeq);
    }

    /** One poll. `cut`, `is500` and `isEnd` are what the caller is told. */
    method GetPlaylist(l: Listing, answer: int -> Answer) returns (cut: Cut, is500: bool, isEnd: bool)
      modifies this, index
      ensures Value() == Polled(old(Value()), l, answer, setting)
      ensures l.formats != [] ==> var p := Fetching(old(Value()), l, answer, setting); cut == p.cut && is500 == p.is500
      ensures isEnd <==> l.last && Completes(old(Value()), l, answer, setting)
    {
      seqNo := l.seqNo;
      cut, is500, isEnd := Through, false, false;
      if l.formats == [] {
        return;
      }
      var minSeq, maxSeq, found404;
      minSeq, maxSeq, found404, is500, cut := Fetch(l, answer);
      if cut == Through {
        Close(minSeq, maxSeq);
        isEnd := l.last;
      }
    }
  }
}
