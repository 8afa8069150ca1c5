/** The in-memory index of the chunks a recording has asked for: one row per sequence number, with the columns
    "answered 200", "answered 404" and "stop going back here". */
module MemDb {

  datatype Row = Row(is200: bool, is404: bool, stopback: bool)
  type Rows = map<int, Row>

  /** How many sequence numbers below the current one keep their row. */
  const Kept := 100

  /** How many rows of a reopened recording are looked at. */
  const Window := 10

  predicate Is200(rows: Rows, n: int) {
    n in rows && rows[n].is200
  }

  predicate StopsAt(rows: Rows, n: int) {
    n in rows && rows[n].stopback
  }

  /** Insert or replace: the other columns of an older row are lost. */
  function Put200(rows: Rows, n: int): Rows {
    rows[n := Row(true, false, false)]
  }

  function Put404(rows: Rows, n: int): Rows {
    rows[n := Row(false, true, false)]
  }

  /** Insert or ignore, then update: the other columns are kept. */
  function PutStop(rows: Rows, n: int): Rows {
    rows[n := if n in rows then rows[n].(stopback := true) else Row(false, false, true)]
  }

  function Deleted(rows: Rows, n: int): Rows {
    map k | k in rows && n - Kept <= k :: rows[k]
  }

  /** A row of the recording's media table, as a reopened recording reads it. */
  datatype Stored = Stored(seqno: int, notfound: bool, size: nat)

  predicate Present(row: Stored) {
    !row.notfound && row.size != 0
  }

  predicate Ascending(table: seq<Stored>) {
    forall i, j :: 0 <= i < j < |table| ==> table[i].seqno < table[j].seqno
  }

  /** The last ten rows, in ascending order. */
  function Latest(table: seq<Stored>): (rows: seq<Stored>)
    ensures |rows| <= Window
    ensures Ascending(table) ==> Ascending(rows)
  {
    if |table| <= Window then table else table[|table| - Window..]
  }

  /** Of the first `n` rows none is missing. */
  predicate NoneMissing(latest: seq<Stored>, n: nat)
    requires n <= |latest|
  {
    forall j :: 0 <= j < n ==> Present(latest[j])
  }

  predicate DescribesOne(rows: Rows, latest: seq<Stored>, i: nat)
    requires i < |latest|
  {
    && latest[i].seqno in rows
    && rows[latest[i].seqno] == Row(Present(latest[i]), !Present(latest[i]), NoneMissing(latest, i + 1))
  }

  /** The index says of each of the first `n` rows whether its chunk is there, and stops going back at exactly those
      that come before the first missing chunk. */
  predicate Describes(rows: Rows, latest: seq<Stored>, n: nat)
    requires n <= |latest|
  {
    && (forall k :: k in rows ==> exists i :: 0 <= i < n && latest[i].seqno == k)
    && (forall i :: 0 <= i < n ==> DescribesOne(rows, latest, i))
  }

  /** They are as many as there are, up to ten, and none of the others comes behind one of them. */
  lemma LatestTen(table: seq<Stored>)
    ensures var n := |Latest(table)|; n == (if |table| < 10 then |table| else 10) && Latest(table) == table[|table| - n..]
  {
    assert table[0..] == table;
  }

  class Index {
    var rows: Rows

    constructor ()
      ensures rows == map[]
    {
      rows := map[];
    }

    method Set200(n: int)
      modifies this
      ensures rows == Put200(old(rows), n)
    {
      rows := rows[n := Row(true, false, false)];
    }

    method Set404(n: int)
      modifies this
      ensures rows == Put404(old(rows), n)
    {
      rows := rows[n := Row(false, true, false)];
    }

    method SetStopBack(n: int)
      modifies this
      ensures rows == PutStop(old(rows), n)
    {
      if n !in rows {
        rows := rows[n := Row(false, false, true)];
      }
      rows := rows[n := rows[n].(stopback := true)];
    }

    method GetStopBack(n: int) returns (stop: bool)
      ensures stop == StopsAt(rows, n)
    {
      stop := n in rows && rows[n].stopback;
    }

    method Check200(n: int) returns (yes: bool)
      ensures yes == Is200(rows, n)
    {
      yes := n in rows && rows[n].is200;
    }

    method Delete(n: int)
      modifies this
      ensures rows == Deleted(old(rows), n)
    {
      rows := map k | k in rows && n - Kept <= k :: rows[k];
    }

    /** Fills the empty index from the media table of a recording that is taken up again. */
    method Open(table: seq<Stored>)
      requires rows == map[] && Ascending(table)
      modifies this
      ensures Describes(rows, Latest(table), |Latest(table)|)
    {
      var latest := Latest(table);
      var found404 := false;
      var i := 0;
      while i < |latest|
        invariant 0 <= i <= |latest|
        invariant found404 <==> !NoneMissing(latest, i)
        invariant Describes(rows, latest, i)
      {
        var row := latest[i];
        ghost var before := rows;
        if row.notfound || row.size == 0 {
          Set404(row.seqno);
          found404 := true;
        } else {
          Set200(row.seqno);
        }
        if !found404 {
          SetStopBack(row.seqno);
        }
        DescribesMore(before, rows, latest, i);
        i := i + 1;
      }
    }
  }

  lemma DescribesMore(before: Rows, after: Rows, latest: seq<Stored>, i: nat)
    requires i < |latest| && Ascending(latest) && Describes(before, latest, i)
    requires after == before[latest[i].seqno := Row(Present(latest[i]), !Present(latest[i]), NoneMissing(latest, i + 1))]
    ensures Describes(after, latest, i + 1)
  {
    forall k | k in after ensures exists j :: 0 <= j < i + 1 && latest[j].seqno == k {
      if k == latest[i].seqno {
      } else {
        var j :| 0 <= j < i && latest[j].seqno == k;
      }
    }
    forall m | 0 <= m < i + 1 ensures DescribesOne(after, latest, m) {
      if m < i { assert DescribesOne(before, latest, m); }
    }
  }
}
