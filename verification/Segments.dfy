/** Conversion of the stored chunks: one output file for every stretch of consecutive numbers of one bandwidth. */
module Segments {
  import opened Bytes

  datatype Row = Row(seqno: nat, bandwidth: nat, data: Data)

  function Joined(rows: seq<Row>): Data {
    if rows == [] then [] else Joined(rows[..|rows| - 1]) + rows[|rows| - 1].data
  }

  function Files(parts: seq<seq<Row>>): (files: seq<Data>)
    ensures |files| == |parts|
    ensures forall i :: 0 <= i < |parts| ==> files[i] == Joined(parts[i])
  {
    seq(|parts|, i requires 0 <= i < |parts| => Joined(parts[i]))
  }

  function Flat(parts: seq<seq<Row>>): seq<Row> {
    if parts == [] then [] else Flat(parts[..|parts| - 1]) + parts[|parts| - 1]
  }

  /** `b` cannot follow `a` in one file. */
  predicate Breaks(a: Row, b: Row) {
    b.seqno != a.seqno + 1 || b.bandwidth != a.bandwidth
  }

  predicate Together(part: seq<Row>) {
    forall i :: 0 < i < |part| ==> !Breaks(part[i - 1], part[i])
  }

  /** The two parts could not be one. */
  predicate Apart(a: seq<Row>, b: seq<Row>) {
    a != [] && b != [] && Breaks(a[|a| - 1], b[0])
  }

  ghost predicate AllApart(parts: seq<seq<Row>>) {
    forall j, k :: 0 <= j < k < |parts| && k == j + 1 ==> Apart(parts[j], parts[k])
  }

  predicate AllTogether(parts: seq<seq<Row>>) {
    forall k :: 0 <= k < |parts| ==> Together(parts[k])
  }

  /** The files hold all rows in order, each an unbroken stretch, and none could be longer. Without rows there is one
      empty file. */
  ghost predicate IsSegmentation(rows: seq<Row>, parts: seq<seq<Row>>) {
    parts != [] && Flat(parts) == rows && AllTogether(parts) && AllApart(parts)
  }

  // ---------- The segmentation is unique ----------

  function Front<T>(s: seq<T>): seq<T>
    requires s != []
  {
    s[..|s| - 1]
  }

  function Final<T>(s: seq<T>): T
    requires s != []
  {
    s[|s| - 1]
  }

  /** Before the last row was added. */
  function Dropped(parts: seq<seq<Row>>): seq<seq<Row>>
    requires parts != [] && Final(parts) != []
  {
    if |parts| > 1 && |Final(parts)| == 1 then Front(parts) else Front(parts) + [Front(Final(parts))]
  }

  /** And after. */
  function Added(parts: seq<seq<Row>>, row: Row): seq<seq<Row>>
    requires parts != []
  {
    if Final(parts) != [] && Breaks(Final(Final(parts)), row) then parts + [[row]]
    else Front(parts) + [Final(parts) + [row]]
  }

  lemma FrontFinal<T>(s: seq<T>)
    requires s != []
    ensures s == Front(s) + [Final(s)]
  {
  }

  lemma LongerNotEmpty(parts: seq<seq<Row>>)
    requires |parts| > 1 && AllApart(parts)
    ensures Final(parts) != []
  {
    assert Apart(parts[|parts| - 2], parts[|parts| - 1]);
  }

  lemma FinalNotEmpty(rows: seq<Row>, parts: seq<seq<Row>>)
    requires rows != [] && IsSegmentation(rows, parts)
    ensures Final(parts) != []
  {
    if |parts| > 1 {
      LongerNotEmpty(parts);
    } else {
      assert Flat(parts[..0]) == [];
    }
  }

  lemma FrontOfSum(front: seq<Row>, last: seq<Row>)
    requires last != []
    ensures Front(front + last) == front + Front(last) && Final(front + last) == Final(last)
  {
  }

  lemma FlatSnoc(front: seq<seq<Row>>, last: seq<Row>)
    ensures Flat(front + [last]) == Flat(front) + last
  {
    assert Front(front + [last]) == front;
  }

  lemma DroppedFlat(rows: seq<Row>, parts: seq<seq<Row>>)
    requires rows != [] && parts != [] && Final(parts) != [] && Flat(parts) == rows
    ensures Flat(Dropped(parts)) == Front(rows) && Final(Final(parts)) == Final(rows)
  {
    var front, last := Front(parts), Final(parts);
    FrontOfSum(Flat(front), last);
    FlatSnoc(front, Front(last));
  }

  lemma DroppedApart(parts: seq<seq<Row>>)
    requires parts != [] && Final(parts) != [] && AllTogether(parts) && AllApart(parts)
    ensures AllTogether(Dropped(parts)) && AllApart(Dropped(parts))
    ensures Added(Dropped(parts), Final(Final(parts))) == parts
  {
    var d, last := Dropped(parts), Final(parts);
    FrontFinal(last);
    FrontFinal(parts);
    if |parts| > 1 {
      assert Apart(parts[|parts| - 2], parts[|parts| - 1]);
    }
    if |parts| > 1 && |last| == 1 {
      assert last == [Final(last)];
    } else {
      forall j, k | 0 <= j < k < |d| && k == j + 1 ensures Apart(d[j], d[k]) {
        assert Apart(parts[j], parts[k]);
      }
      if |last| > 1 { assert !Breaks(last[|last| - 2], last[|last| - 1]); }
      assert d != [] && Final(d) == Front(last) && Front(d) == Front(parts);
    }
  }

  function Split(rows: seq<Row>): (parts: seq<seq<Row>>)
    ensures parts != []
    decreases |rows|
  {
    if rows == [] then [[]] else Added(Split(Front(rows)), Final(rows))
  }

  /** The files of a list of rows are determined by the rows. */
  lemma {:induction false} OneSegmentation(rows: seq<Row>, parts: seq<seq<Row>>)
    requires IsSegmentation(rows, parts)
    ensures parts == Split(rows)
    decreases |rows|
  {
    if rows == [] {
      if |parts| > 1 { LongerNotEmpty(parts); }
      assert parts == [Final(parts)];
    } else {
      FinalNotEmpty(rows, parts);
      DroppedFlat(rows, parts);
      DroppedApart(parts);
      OneSegmentation(Front(rows), Dropped(parts));
    }
  }

  lemma AddedSegmentation(rows: seq<Row>, parts: seq<seq<Row>>, row: Row)
    requires IsSegmentation(rows, parts)
    ensures IsSegmentation(rows + [row], Added(parts, row))
  {
    var a, last := Added(parts, row), Final(parts);
    FrontFinal(parts);
    if last != [] && Breaks(Final(last), row) {
      FlatSnoc(parts, [row]);
      forall j, k | 0 <= j < k < |a| && k == j + 1 ensures Apart(a[j], a[k]) {
        if k < |parts| { assert Apart(parts[j], parts[k]); }
      }
    } else {
      FlatSnoc(Front(parts), last + [row]);
      assert Flat(parts) == Flat(Front(parts)) + last;
      assert (Flat(Front(parts)) + last) + [row] == Flat(Front(parts)) + (last + [row]);
      forall j, k | 0 <= j < k < |a| && k == j + 1 ensures Apart(a[j], a[k]) {
        assert Apart(parts[j], parts[k]);
      }
    }
  }

  lemma {:induction false} SplitIsSegmentation(rows: seq<Row>)
    ensures IsSegmentation(rows, Split(rows))
    decreases |rows|
  {
    if rows == [] {
      assert Flat([[]]) == Flat([]) + [];
    } else {
      SplitIsSegmentation(Front(rows));
      AddedSegmentation(Front(rows), Split(Front(rows)), Final(rows));
      FrontFinal(rows);
    }
  }

  // ---------- What the number of files says ----------

  function BreakCount(rows: seq<Row>): nat {
    if |rows| < 2 then 0
    else BreakCount(Front(rows)) + (if Breaks(rows[|rows| - 2], rows[|rows| - 1]) then 1 else 0)
  }

  /** One stretch of consecutive numbers in one bandwidth. */
  predicate Unbroken(rows: seq<Row>) {
    forall i :: 0 <= i < |rows| ==> rows[i].seqno == rows[0].seqno + i && rows[i].bandwidth == rows[0].bandwidth
  }

  lemma UnbrokenStep(rows: seq<Row>)
    requires |rows| > 1
    ensures Final(Front(rows)) == rows[|rows| - 2]
    ensures Unbroken(rows) <==> Unbroken(Front(rows)) && !Breaks(rows[|rows| - 2], rows[|rows| - 1])
  {
    var front, n := Front(rows), |rows| - 1;
    assert forall i :: 0 <= i < n ==> front[i] == rows[i];
    if Unbroken(rows) {
      assert rows[n].seqno == rows[0].seqno + n && rows[n - 1].seqno == rows[0].seqno + (n - 1);
    }
    if Unbroken(front) {
      assert front[n - 1].seqno == front[0].seqno + (n - 1);
    }
  }

  lemma {:induction false} CountIsBreaks(rows: seq<Row>)
    ensures |Split(rows)| == 1 + BreakCount(rows)
    ensures rows != [] ==> Final(Split(rows)) != [] && Final(Final(Split(rows))) == Final(rows)
    ensures BreakCount(rows) == 0 <==> Unbroken(rows)
    decreases |rows|
  {
    if rows != [] {
      var front := Front(rows);
      CountIsBreaks(front);
      if |rows| > 1 { UnbrokenStep(rows); }
    }
  }

  /** There is one file exactly when the recording is unbroken, and in general one more than there are breaks. */
  lemma FileCount(rows: seq<Row>, parts: seq<seq<Row>>)
    requires IsSegmentation(rows, parts)
    ensures |parts| == 1 + BreakCount(rows)
    ensures |parts| == 1 <==> Unbroken(rows)
  {
    OneSegmentation(rows, parts);
    CountIsBreaks(rows);
  }

  /** All files together are all chunks together. */
  lemma {:induction false} NothingLost(parts: seq<seq<Row>>)
    ensures Concatenated(Files(parts)) == Joined(Flat(parts))
    decreases |parts|
  {
    if parts != [] {
      NothingLost(Front(parts));
      assert Files(parts) == Files(Front(parts)) + [Joined(Final(parts))];
      JoinedAppend(Flat(Front(parts)), Final(parts));
    }
  }

  function Concatenated(files: seq<Data>): Data {
    if files == [] then [] else Concatenated(Front(files)) + Final(files)
  }

  lemma {:induction false} JoinedAppend(a: seq<Row>, b: seq<Row>)
    ensures Joined(a + b) == Joined(a) + Joined(b)
    decreases |b|
  {
    if b == [] {
      assert a + b == a;
    } else {
      JoinedAppend(a, Front(b));
      FrontOfSum(a, b);
    }
  }

  // ---------- The conversion ----------

  class Converter {
    var mp4List: seq<Data>
    ghost var parts: seq<seq<Row>>

    ghost predicate Valid()
      reads this
    {
      mp4List == Files(parts)
    }

    constructor ()
      ensures Valid() && parts == []
    {
      mp4List, parts := [], [];
    }

    method OpenFFMpeg()
      requires Valid()
      modifies this
      ensures Valid() && parts == old(parts) + [[]]
    {
      mp4List, parts := mp4List + [[]], parts + [[]];
    }

    method FFInput(row: Row)
      requires Valid() && parts != []
      modifies this
      ensures Valid() && parts == old(Front(parts) + [Final(parts) + [row]])
    {
      var n := |mp4List| - 1;
      assert Front(parts[n] + [row]) == parts[n];
      mp4List := mp4List[n := mp4List[n] + row.data];
      parts := parts[n := parts[n] + [row]];
    }
  }

  lemma SplitStep(rows: seq<Row>, i: nat)
    requires i < |rows|
    ensures Split(rows[..i + 1]) == Added(Split(rows[..i]), rows[i])
    ensures i > 0 ==> Final(Split(rows[..i])) != [] && Final(Final(Split(rows[..i]))) == rows[i - 1]
    ensures i == 0 ==> Split(rows[..i]) == [[]]
  {
    assert Front(rows[..i + 1]) == rows[..i];
    CountIsBreaks(rows[..i]);
  }

  lemma OpenedAndAdded(parts: seq<seq<Row>>, row: Row)
    ensures Front(parts + [[]]) + [Final(parts + [[]]) + [row]] == parts + [[row]]
  {
    assert [] + [row] == [row];
  }

  lemma Converted(rows: seq<Row>)
    ensures IsSegmentation(rows, Split(rows)) && |Split(rows)| == 1 + BreakCount(rows)
    ensures Concatenated(Files(Split(rows))) == Joined(rows)
  {
    SplitIsSegmentation(rows);
    FileCount(rows, Split(rows));
    NothingLost(Split(rows));
  }

  /** The loop over the selected rows. */
  method ConvertDB(rows: seq<Row>) returns (mp4List: seq<Data>, nMp4s: nat, ghost parts: seq<seq<Row>>)
    ensures IsSegmentation(rows, parts) && mp4List == Files(parts)
    ensures Concatenated(mp4List) == Joined(rows)
    ensures nMp4s == |mp4List| == 1 + BreakCount(rows)
  {
    var zm := new Converter();
    zm.OpenFFMpeg();
    var prevBw: int, prevIndex: int := -1, -1;
    for i := 0 to |rows|
      invariant zm.Valid() && zm.parts == Split(rows[..i])
      invariant if i == 0 then prevBw == prevIndex == -1 else prevBw == rows[i - 1].bandwidth && prevIndex == rows[i - 1].seqno
    {
      SplitStep(rows, i);
      ghost var before := zm.parts;
      var seqno, bw := rows[i].seqno, rows[i].bandwidth;
      if (prevIndex >= 0 && seqno != prevIndex + 1) || (prevBw >= 0 && bw != prevBw) {
        zm.OpenFFMpeg();
        OpenedAndAdded(before, rows[i]);
      }
      prevBw, prevIndex := bw, seqno;
      zm.FFInput(rows[i]);
    }
    assert rows[..|rows|] == rows;
    mp4List, nMp4s, parts := zm.mp4List, |zm.mp4List|, zm.parts;
    Converted(rows);
  }

  /** Whether the recording is deleted after its conversion. */
  method DeletesAfter(mode: int, nMp4s: nat) returns (deletes: bool)
    ensures deletes <==> (nMp4s == 1 && mode >= 1) || (nMp4s > 1 && mode >= 2)
  {
    deletes := false;
    if nMp4s == 1 {
      if 1 <= mode { deletes := true; }
    } else if 1 < nMp4s {
      if 2 <= mode { deletes := true; }
    }
  }

  /** Converts and decides: a broken recording is deleted only in mode 2 or above, an unbroken one from mode 1 on. */
  method ConvertAndDecide(rows: seq<Row>, mode: int) returns (mp4List: seq<Data>, deletes: bool)
    ensures Concatenated(mp4List) == Joined(rows)
    ensures deletes <==> if Unbroken(rows) then mode >= 1 else mode >= 2
  {
    var n;
    ghost var parts;
    mp4List, n, parts := ConvertDB(rows);
    FileCount(rows, parts);
    deletes := DeletesAfter(mode, n);
  }
}
