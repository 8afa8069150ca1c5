/** The media table and the writes to it. Every write is a goroutine of its own, so they take effect in any order. */
module MediaDb {
  import opened Options
  import opened Bytes
  import opened MemDb

  datatype Chunk = Chunk(bandwidth: nat, data: Data)

  /** A row either says that the chunk is missing or holds it. */
  datatype Row = Missing | Held(chunk: Chunk)
  type Table = map<int, Row>

  datatype Write = Ignore404(seqno: int) | Replace200(seqno: int, chunk: Chunk)

  function Executed(t: Table, w: Write): Table {
    match w
    case Ignore404(n) => if n in t then t else t[n := Missing]
    case Replace200(n, c) => t[n := Held(c)]
  }

  function ExecutedAll(t: Table, writes: seq<Write>): Table
    decreases |writes|
  {
    if writes == [] then t else Executed(ExecutedAll(t, writes[..|writes| - 1]), writes[|writes| - 1])
  }

  /** The rows that a conversion selects. */
  function Selected(t: Table): set<int> {
    set n | n in t && t[n].Held? :: n
  }

  function Replaced(writes: seq<Write>): set<int> {
    set w | w in writes && w.Replace200? :: w.seqno
  }

  // ---------- The order of the writes ----------

  lemma SelectedOne(t: Table, w: Write)
    ensures Selected(Executed(t, w)) == Selected(t) + (if w.Replace200? then {w.seqno} else {})
  {
    var u := Executed(t, w);
    forall n ensures n in Selected(u) <==> n in Selected(t) || (w.Replace200? && n == w.seqno) {
      assert n in Selected(u) <==> n in u && u[n].Held?;
      assert n in Selected(t) <==> n in t && t[n].Held?;
    }
  }

  /** Selected in the end are the chunks that were stored before and those that some write stores. */
  lemma {:induction false} SelectedAfter(t: Table, writes: seq<Write>)
    ensures Selected(ExecutedAll(t, writes)) == Selected(t) + Replaced(writes)
    decreases |writes|
  {
    if writes != [] {
      var n := |writes| - 1;
      SelectedAfter(t, writes[..n]);
      SelectedOne(ExecutedAll(t, writes[..n]), writes[n]);
      assert writes == writes[..n] + [writes[n]];
    }
  }

  lemma SameMembers(a: seq<Write>, b: seq<Write>)
    requires multiset(a) == multiset(b)
    ensures forall w :: w in a <==> w in b
  {
    forall w ensures w in a <==> w in b {
      assert w in a <==> w in multiset(a);
      assert w in b <==> w in multiset(b);
    }
  }

  /** In whatever order the writes take effect, the same chunks are selected, and none that was stored is lost. */
  lemma OrderKeepsSelected(t: Table, a: seq<Write>, b: seq<Write>)
    requires multiset(a) == multiset(b)
    ensures Selected(ExecutedAll(t, a)) == Selected(ExecutedAll(t, b)) >= Selected(t)
  {
    SameMembers(a, b);
    SelectedAfter(t, a);
    SelectedAfter(t, b);
    assert Replaced(a) == Replaced(b);
  }

  /** No two writes store different chunks under one number. */
  predicate Agree(writes: seq<Write>) {
    forall v, w :: v in writes && w in writes && v.Replace200? && w.Replace200? && v.seqno == w.seqno ==> v == w
  }

  /** What row `n` is once the writes have taken effect, if they agree. */
  predicate RowAfter(t: Table, writes: seq<Write>, n: int, row: Row) {
    if n in Replaced(writes) then row.Held? && Replace200(n, row.chunk) in writes
    else if n in t then row == t[n]
    else row == Missing
  }

  function Numbers(writes: seq<Write>): set<int> {
    set w | w in writes :: w.seqno
  }

  lemma {:induction false} AgreedRows(t: Table, writes: seq<Write>)
    ensures ExecutedAll(t, writes).Keys == t.Keys + Numbers(writes)
    ensures forall n :: n in ExecutedAll(t, writes) ==> RowAfter(t, writes, n, ExecutedAll(t, writes)[n])
    decreases |writes|
  {
    if writes != [] {
      var before, w := writes[..|writes| - 1], writes[|writes| - 1];
      assert writes == before + [w];
      AgreedRows(t, before);
      assert Numbers(writes) == Numbers(before) + {w.seqno};
      var s, u := ExecutedAll(t, before), ExecutedAll(t, writes);
      forall n | n in u ensures RowAfter(t, writes, n, u[n]) {
        if n in s { assert RowAfter(t, before, n, s[n]); }
        assert n in Replaced(writes) <==> n in Replaced(before) || (w.Replace200? && w.seqno == n);
      }
    }
  }

  /** Every order of the writes leaves the same table. */
  ghost predicate AnyOrder(t: Table, writes: seq<Write>) {
    forall b: seq<Write> :: multiset(b) == multiset(writes) ==> ExecutedAll(t, b) == ExecutedAll(t, writes)
  }

  lemma AgreeingOrder(t: Table, a: seq<Write>, b: seq<Write>)
    requires Agree(a) && multiset(a) == multiset(b)
    ensures ExecutedAll(t, a) == ExecutedAll(t, b)
  {
    SameMembers(a, b);
    AgreedRows(t, a);
    AgreedRows(t, b);
    assert Numbers(a) == Numbers(b) && Replaced(a) == Replaced(b);
    var u, v := ExecutedAll(t, a), ExecutedAll(t, b);
    assert u.Keys == v.Keys;
    forall n | n in u ensures u[n] == v[n] {
      assert RowAfter(t, a, n, u[n]) && RowAfter(t, b, n, v[n]);
    }
  }

  /** Some order of the writes has write `i` last. */
  function Last(writes: seq<Write>, i: nat): seq<Write>
    requires i < |writes|
  {
    writes[..i] + writes[i + 1..] + [writes[i]]
  }

  lemma LastIsOrder(writes: seq<Write>, i: nat)
    requires i < |writes|
    ensures multiset(Last(writes, i)) == multiset(writes)
  {
    assert writes == writes[..i] + [writes[i]] + writes[i + 1..];
  }

  lemma LastWins(t: Table, writes: seq<Write>, i: nat)
    requires i < |writes| && writes[i].Replace200?
    ensures writes[i].seqno in ExecutedAll(t, Last(writes, i))
    ensures ExecutedAll(t, Last(writes, i))[writes[i].seqno] == Held(writes[i].chunk)
  {
    var b := Last(writes, i);
    assert b[..|b| - 1] == writes[..i] + writes[i + 1..];
  }

  /** The contents do not depend on the order exactly when no two writes store different chunks under one number. */
  lemma OrderKeepsContents(t: Table, writes: seq<Write>)
    ensures AnyOrder(t, writes) <==> Agree(writes)
  {
    if Agree(writes) {
      forall b: seq<Write> | multiset(b) == multiset(writes) ensures ExecutedAll(t, b) == ExecutedAll(t, writes) {
        AgreeingOrder(t, writes, b);
      }
    } else {
      var i, j :| 0 <= i < |writes| && 0 <= j < |writes| && writes[i].Replace200? && writes[j].Replace200?
               && writes[i].seqno == writes[j].seqno && writes[i] != writes[j];
      LastIsOrder(writes, i);
      LastIsOrder(writes, j);
      LastWins(t, writes, i);
      LastWins(t, writes, j);
    }
  }

  // ---------- The queue of writes ----------

  /** `accepted` are the numbers whose write was started, `dropped` those that came after an interrupt. */
  datatype State = State(rows: Rows, table: Table, queue: seq<Write>, interrupted: bool, accepted: set<int>, dropped: set<int>)

  datatype Step =
    | Save200(seqno: int, chunk: Chunk) | Save404(seqno: int)
    | Stop(seqno: int) | Forget(seqno: int)
    | Exec(i: nat) | Interrupt

  predicate Enabled(s: State, step: Step) {
    step.Exec? ==> step.i < |s.queue|
  }

  function Without(queue: seq<Write>, i: nat): seq<Write>
    requires i < |queue|
  {
    queue[..i] + queue[i + 1..]
  }

  function Next(s: State, step: Step): State
    requires Enabled(s, step)
  {
    match step
    case Save200(n, c) =>
      if s.interrupted then s.(rows := Put200(s.rows, n), dropped := s.dropped + {n})
      else s.(rows := Put200(s.rows, n), queue := s.queue + [Replace200(n, c)], accepted := s.accepted + {n})
    case Save404(n) =>
      s.(rows := Put404(s.rows, n), queue := if s.interrupted then s.queue else s.queue + [Ignore404(n)])
    case Stop(n) => s.(rows := PutStop(s.rows, n))
    case Forget(n) => s.(rows := Deleted(s.rows, n))
    case Exec(i) => s.(table := Executed(s.table, s.queue[i]), queue := Without(s.queue, i))
    case Interrupt => s.(interrupted := true)
  }

  /** A run from a table and an index that agree, such as two empty ones. */
  function Run(first: State, steps: seq<Step>): Option<State>
    decreases |steps|
  {
    if steps == [] then Some(first)
    else
      var before := Run(first, steps[..|steps| - 1]);
      var step := steps[|steps| - 1];
      if before.Some? && Enabled(before.value, step) then Some(Next(before.value, step)) else None
  }

  ghost predicate Starts(s: State) {
    s.queue == [] && !s.interrupted && s.accepted == Selected(s.table) && s.dropped == {}
    && forall n :: Is200(s.rows, n) ==> n in Selected(s.table)
  }

  /** `listing` is what a reopened recording reads from its media table: number, missing or not, and size of the chunk. */
  predicate IsListing(t: Table, listing: seq<Stored>) {
    forall i :: 0 <= i < |listing| ==>
      && listing[i].seqno in t
      && match t[listing[i].seqno]
         case Missing => listing[i].notfound && listing[i].size == 0
         case Held(c) => !listing[i].notfound && listing[i].size == |c.data|
  }

  /** The index a reopened recording fills knows only chunks that are stored, so its writes start from a table and an index that agree. */
  lemma ReopenedStarts(t: Table, listing: seq<Stored>, rows: Rows)
    requires IsListing(t, listing) && Describes(rows, Latest(listing), |Latest(listing)|)
    ensures Starts(State(rows, t, [], false, Selected(t), {}))
  {
    var latest := Latest(listing);
    var n := |listing| - |latest|;
    forall k | Is200(rows, k) ensures k in Selected(t) {
      var i :| 0 <= i < |latest| && latest[i].seqno == k;
      assert DescribesOne(rows, latest, i) && latest[i] == listing[n + i];
    }
  }

  /** The table holds the chunk, and it is not empty. */
  predicate Whole(t: Table, n: int) {
    n in t && t[n].Held? && t[n].chunk.data != []
  }

  /** The index knows row `k` of `last` if the chunk is there, and stops going back at it if none has been missing so far. */
  predicate KnownAs(t: Table, last: seq<Stored>, rows: Rows, k: nat)
    requires k < |last|
  {
    && (Is200(rows, last[k].seqno) <==> Whole(t, last[k].seqno))
    && (StopsAt(rows, last[k].seqno) <==> forall j :: 0 <= j <= k ==> Whole(t, last[j].seqno))
  }

  lemma DescribedAs(t: Table, last: seq<Stored>, rows: Rows, k: nat)
    requires IsListing(t, last) && Describes(rows, last, |last|) && k < |last|
    ensures KnownAs(t, last, rows, k)
  {
    assert DescribesOne(rows, last, k);
    assert forall j :: 0 <= j < |last| ==> (Present(last[j]) <==> Whole(t, last[j].seqno));
  }

  /** A reopened recording knows of the last ten rows of its table exactly the chunks that are there, stops going back exactly where
      none has been missing so far, and knows nothing of other rows. */
  lemma ReopenedKnows(t: Table, listing: seq<Stored>, rows: Rows, last: seq<Stored>)
    requires IsListing(t, listing) && Describes(rows, Latest(listing), |Latest(listing)|)
    requires last == if |listing| <= 10 then listing else listing[|listing| - 10..]
    ensures forall k :: 0 <= k < |last| ==> KnownAs(t, last, rows, k)
    ensures forall n :: n in rows ==> exists k :: 0 <= k < |last| && last[k].seqno == n
  {
    assert last == Latest(listing);
    forall k | 0 <= k < |last| ensures KnownAs(t, last, rows, k) { DescribedAs(t, last, rows, k); }
  }

  ghost predicate Inv(s: State) {
    && Selected(s.table) + Replaced(s.queue) == s.accepted
    && (forall n :: Is200(s.rows, n) ==> n in s.accepted || n in s.dropped)
    && (!s.interrupted ==> s.dropped == {})
  }

  lemma WithoutOne(queue: seq<Write>, i: nat)
    requires i < |queue|
    ensures Replaced(queue) == Replaced(Without(queue, i)) + (if queue[i].Replace200? then {queue[i].seqno} else {})
  {
    var rest := Without(queue, i);
    assert forall w :: w in queue <==> w in rest || w == queue[i] by {
      assert queue == queue[..i] + [queue[i]] + queue[i + 1..];
    }
  }

  lemma StepKeepsInv(s: State, step: Step)
    requires Enabled(s, step) && Inv(s)
    ensures Inv(Next(s, step))
  {
    match step
    case Exec(i) =>
      WithoutOne(s.queue, i);
      SelectedOne(s.table, s.queue[i]);
    case Save200(n, c) =>
      assert Replaced(s.queue + [Replace200(n, c)]) == Replaced(s.queue) + {n};
    case Save404(n) =>
      assert Replaced(s.queue + [Ignore404(n)]) == Replaced(s.queue);
    case _ =>
  }

  lemma {:induction false} RunKeepsInv(first: State, steps: seq<Step>)
    requires Starts(first) && Run(first, steps).Some?
    ensures Inv(Run(first, steps).value)
    decreases |steps|
  {
    if steps == [] {
      assert Replaced(first.queue) == {};
    } else {
      RunKeepsInv(first, steps[..|steps| - 1]);
      StepKeepsInv(Run(first, steps[..|steps| - 1]).value, steps[|steps| - 1]);
    }
  }

  /** Once the queue has drained, whatever order it drained in, the selected chunks are exactly those whose write was
      started; every chunk the index knows is one of them unless its write came after an interrupt. */
  lemma DrainedQueue(first: State, steps: seq<Step>)
    requires Starts(first) && Run(first, steps).Some? && Run(first, steps).value.queue == []
    ensures var s := Run(first, steps).value;
      && Selected(s.table) == s.accepted
      && (forall n :: Is200(s.rows, n) ==> n in Selected(s.table) || n in s.dropped)
      && (!s.interrupted ==> forall n :: Is200(s.rows, n) ==> n in Selected(s.table))
  {
    RunKeepsInv(first, steps);
    assert Replaced([]) == {};
  }

  /** After an interrupt the index still takes note of a chunk that is no longer stored. */
  lemma InterruptDrops(n: int, c: Chunk)
    ensures var first := State(map[], map[], [], false, {}, {});
      var s := Run(first, [Interrupt, Save200(n, c)]);
      Starts(first) && s.Some? && s.value.queue == [] && Is200(s.value.rows, n) && n !in Selected(s.value.table)
  {
    var first := State(map[], map[], [], false, {}, {});
    var steps := [Interrupt, Save200(n, c)];
    assert steps[..1] == [Interrupt] && steps[..1][..0] == [];
    assert Run(first, [Interrupt]) == Some(Next(first, Interrupt));
  }

  // ---------- The recorder's side ----------

  class Store {
    const index: Index
    var table: Table
    var queue: seq<Write>
    var interrupted: bool
    ghost var accepted: set<int>
    ghost var dropped: set<int>

    constructor ()
      ensures Value() == State(map[], map[], [], false, {}, {}) && fresh(index)
    {
      index := new Index();
      table, queue, interrupted, accepted, dropped := map[], [], false, {}, {};
    }

    /** A recording taken up again: the table is there, and the index is filled from its last rows. */
    constructor Reopen(table: Table, listing: seq<Stored>)
      requires IsListing(table, listing) && Ascending(listing)
      ensures Starts(Value()) && this.table == table && fresh(index)
      ensures Describes(index.rows, Latest(listing), |Latest(listing)|)
    {
      var rows := new Index();
      index := rows;
      this.table, queue, interrupted, accepted, dropped := table, [], false, Selected(table), {};
      new;
      index.Open(listing);
      ReopenedStarts(table, listing, index.rows);
    }

    ghost function Value(): State
      reads this, index
    {
      State(index.rows, table, queue, interrupted, accepted, dropped)
    }

    /** A write becomes a goroutine, unless the recording is interrupted. */
    method Insert(w: Write)
      modifies this`queue
      ensures queue == if interrupted then old(queue) else old(queue) + [w]
    {
      if !interrupted {
        queue := queue + [w];
      }
    }

    method SaveFound(n: int, c: Chunk)
      modifies this, index
      ensures Value() == Next(old(Value()), Save200(n, c))
    {
      Insert(Replace200(n, c));
      if interrupted { dropped := dropped + {n}; } else { accepted := accepted + {n}; }
      index.Set200(n);
    }

    method SaveMissing(n: int)
      modifies this, index
      ensures Value() == Next(old(Value()), Save404(n))
    {
      Insert(Ignore404(n));
      index.Set404(n);
    }

    /** Some goroutine of those started gets the database lock. */
    method DbExec(i: nat)
      requires i < |queue|
      modifies this
      ensures Value() == Next(old(Value()), Exec(i))
    {
      match queue[i] {
        case Ignore404(n) => if n !in table { table := table[n := Missing]; }
        case Replace200(n, c) => table := table[n := Held(c)];
      }
      queue := queue[..i] + queue[i + 1..];
    }

    method StartInterrupt()
      modifies this
      ensures Value() == Next(old(Value()), Interrupt)
    {
      interrupted := true;
    }
  }
}
