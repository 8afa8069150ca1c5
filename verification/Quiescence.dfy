/** The end of `Wait`: four managers are waited for one after the other while goroutines may still start others. */
module Quiescence {

  /** Playlist, comment, database and main goroutines, each kind with a manager of its own. */
  datatype Kind = Plst | Cmnt | Db | Main

  /** Who starts whom: the playlist side starts everything but main goroutines, the comment side comment and database ones,
      and the interrupt handler starts its successor. Database goroutines start nothing. */
  predicate MayStart(k: Kind, started: Kind) {
    match k
    case Plst => started != Main
    case Cmnt => started == Cmnt || started == Db
    case Db => false
    case Main => started == Main
  }

  /** Where `Wait` is. `Final(i)` waits for the manager number `i` of the final order. */
  datatype Pc = Starting | Loop | WaitRestart | Stopping | Final(i: nat) | Over

  /** `live` holds every goroutine the wait groups count, `ever` all that were started. */
  datatype State = State(pc: Pc, live: map<nat, Kind>, ever: set<nat>)

  datatype Step =
    | Start(id: nat, kind: Kind)                      // by Wait itself
    | StartBy(from: nat, id: nat, kind: Kind)           // by a goroutine
    | End(id: nat)
    | Enter | Working | NotWorking | Restart | NoRestart | Waited
    | WaitedFinally | Leave

  predicate NoneLive(s: State, kind: Kind) {
    forall id :: id in s.live ==> s.live[id] != kind
  }

  predicate Enabled(s: State, step: Step, order: seq<Kind>) {
    match step
    case Start(id, kind) => s.pc == Starting && kind != Cmnt && id !in s.ever
    case StartBy(from, id, kind) => from in s.live && MayStart(s.live[from], kind) && id !in s.ever
    case End(id) => id in s.live
    case Enter => s.pc == Starting
    case Working => s.pc == Loop
    case NotWorking => s.pc == Loop
    case Restart => s.pc == WaitRestart && NoneLive(s, Plst)
    case NoRestart => s.pc == WaitRestart && NoneLive(s, Plst)
    case Waited => s.pc == Stopping && NoneLive(s, Cmnt)
    case WaitedFinally => s.pc.Final? && s.pc.i < |order| && NoneLive(s, order[s.pc.i])
    case Leave => s.pc == Final(|order|)
  }

  /** The working check looks at channels, which a cancellation removes early, so it may come out either way.
      A restart goes back to starting, where `startMain` runs. */
  function Next(s: State, step: Step): State
  {
    match step
    case Start(id, kind) => s.(live := s.live[id := kind], ever := s.ever + {id})
    case StartBy(_, id, kind) => s.(live := s.live[id := kind], ever := s.ever + {id})
    case End(id) => s.(live := s.live - {id})
    case Enter => s.(pc := Loop)
    case Working => s.(pc := WaitRestart)
    case NotWorking => s.(pc := Final(0))
    case Restart => s.(pc := Starting)
    case NoRestart => s.(pc := Stopping)
    case Waited => s.(pc := Loop)
    case WaitedFinally => s.(pc := Final(if s.pc.Final? then s.pc.i + 1 else 0))
    case Leave => s.(pc := Over)
  }

  const Init := State(Starting, map[], {})

  predicate Legal(s: State, steps: seq<Step>, order: seq<Kind>)
    decreases |steps|
  {
    steps == [] || (Enabled(s, steps[0], order) && Legal(Next(s, steps[0]), steps[1..], order))
  }

  function Run(s: State, steps: seq<Step>): State
    decreases |steps|
  {
    if steps == [] then s else Run(Next(s, steps[0]), steps[1..])
  }

  const WaitOrder := [Plst, Cmnt, Db, Main]

  predicate IsOrder(order: seq<Kind>) {
    && |order| == 4 && Plst in order && Cmnt in order && Db in order && Main in order
    && forall i, j :: 0 <= i < |order| && 0 <= j < |order| && i != j ==> order[i] != order[j]
  }

  /** Whoever may start another kind is waited for before that kind. */
  predicate StartersFirst(order: seq<Kind>) {
    forall i, j :: 0 <= i < |order| && 0 <= j < |order| && i != j && MayStart(order[i], order[j]) ==> i < j
  }

  /** The managers already waited for are idle, for good. */
  predicate Inv(s: State, order: seq<Kind>) {
    && (s.pc == Over ==> s.live == map[])
    && (s.pc.Final? ==> s.pc.i <= |order| && forall i :: 0 <= i < s.pc.i ==> NoneLive(s, order[i]))
  }

  lemma StepKeepsInv(s: State, step: Step, order: seq<Kind>)
    requires IsOrder(order) && StartersFirst(order) && Inv(s, order) && Enabled(s, step, order)
    ensures Inv(Next(s, step), order)
  {
    match step
    case StartBy(from, id, kind) =>
      if s.pc.Final? {
        var j := IndexOf(s.live[from], order);
        assert j >= s.pc.i;
        forall i | 0 <= i < s.pc.i ensures order[i] != kind {
          StartedLater(order, i, j);
        }
      }
    case Leave => AllIdle(s, order);
    case _ =>
  }

  lemma IndexOf(k: Kind, order: seq<Kind>) returns (j: nat)
    requires IsOrder(order)
    ensures j < |order| && order[j] == k
  {
    j :| 0 <= j < |order| && order[j] == k;
  }

  lemma StartedLater(order: seq<Kind>, i: nat, j: nat)
    requires IsOrder(order) && StartersFirst(order) && i < j < |order|
    ensures !MayStart(order[j], order[i])
  {
  }

  lemma AllIdle(s: State, order: seq<Kind>)
    requires IsOrder(order) && forall i :: 0 <= i < |order| ==> NoneLive(s, order[i])
    ensures s.live == map[]
  {
    forall id ensures id !in s.live {
      if id in s.live {
        var _ := IndexOf(s.live[id], order);
      }
    }
  }

  lemma {:induction false} RunKeepsInv(s: State, steps: seq<Step>, order: seq<Kind>)
    requires IsOrder(order) && StartersFirst(order) && Inv(s, order) && Legal(s, steps, order)
    ensures Inv(Run(s, steps), order)
    decreases |steps|
  {
    if steps != [] {
      StepKeepsInv(s, steps[0], order);
      RunKeepsInv(Next(s, steps[0]), steps[1..], order);
    }
  }

  /** No interleaving leaves `Wait` with a goroutine still running. */
  ghost predicate Quiescent(order: seq<Kind>) {
    forall steps :: Legal(Init, steps, order) && Run(Init, steps).pc == Over ==> Run(Init, steps).live == map[]
  }

  // ---------- The order matters ----------

  /** Waiting passes over managers that have nothing to wait for. */
  function Passes(n: nat): seq<Step> {
    seq(n, _ => WaitedFinally)
  }

  lemma {:induction false} PassesRun(s: State, n: nat, order: seq<Kind>)
    requires s.pc.Final? && s.pc.i + n <= |order|
    requires forall i :: s.pc.i <= i < s.pc.i + n ==> NoneLive(s, order[i])
    ensures Legal(s, Passes(n), order) && Run(s, Passes(n)) == s.(pc := Final(s.pc.i + n))
    decreases n
  {
    if n > 0 {
      PassesRun(s.(pc := Final(s.pc.i + 1)), n - 1, order);
      assert Passes(n)[1..] == Passes(n - 1);
    }
  }

  lemma {:induction false} RunAppend(s: State, a: seq<Step>, b: seq<Step>, order: seq<Kind>)
    requires Legal(s, a, order) && Legal(Run(s, a), b, order)
    ensures Legal(s, a + b, order) && Run(s, a + b) == Run(Run(s, a), b)
    decreases |a|
  {
    if a == [] {
      assert a + b == b;
    } else {
      RunAppend(Next(s, a[0]), a[1..], b, order);
      assert (a + b)[1..] == a[1..] + b;
    }
  }

  lemma OneStep(s: State, step: Step, order: seq<Kind>)
    requires Enabled(s, step, order)
    ensures Legal(s, [step], order) && Run(s, [step]) == Next(s, step)
  {
    assert [step][1..] == [];
  }

  /** A legal run can be continued. */
  lemma Extend(s: State, a: seq<Step>, step: Step, order: seq<Kind>) returns (b: seq<Step>)
    requires Legal(s, a, order) && Enabled(Run(s, a), step, order)
    ensures Legal(s, b, order) && Run(s, b) == Next(Run(s, a), step)
  {
    b := a + [step];
    OneStep(Run(s, a), step, order);
    RunAppend(s, a, [step], order);
  }

  /** A run up to the final waits with one goroutine of kind `k` left. */
  lemma OneLeft(k: Kind, order: seq<Kind>) returns (steps: seq<Step>)
    ensures Legal(Init, steps, order)
    ensures var s := Run(Init, steps);
      s.pc == Final(0) && s.live == map[1 := k] && s.ever == {0, 1}
  {
    steps := Extend(Init, [], Start(0, if k == Main then Main else Plst), order);
    steps := Extend(Init, steps, if k == Plst || k == Cmnt || k == Db then StartBy(0, 1, k) else StartBy(0, 1, Main), order);
    steps := Extend(Init, steps, End(0), order);
    assert Run(Init, steps).live == map[1 := k];
    steps := Extend(Init, steps, Enter, order);
    steps := Extend(Init, steps, NotWorking, order);
  }

  /** The waits reach `order[j]`, whose goroutine starts one of a kind already waited for and ends. */
  lemma HandedOver(order: seq<Kind>, i: nat, j: nat) returns (steps: seq<Step>)
    requires IsOrder(order) && i < j < |order| && MayStart(order[j], order[i])
    ensures Legal(Init, steps, order)
    ensures Run(Init, steps).pc == Final(j) && Run(Init, steps).live == map[2 := order[i]]
  {
    steps := OneLeft(order[j], order);
    PassesRun(Run(Init, steps), j, order);
    RunAppend(Init, steps, Passes(j), order);
    steps := Extend(Init, steps + Passes(j), StartBy(1, 2, order[i]), order);
    steps := Extend(Init, steps, End(1), order);
    assert Run(Init, steps).live == map[2 := order[i]];
  }

  /** If `order[j]` may start `order[i]` but is waited for after it, the started goroutine can be left behind. */
  lemma LeftBehind(order: seq<Kind>, i: nat, j: nat) returns (steps: seq<Step>)
    requires IsOrder(order) && i < j < |order| && MayStart(order[j], order[i])
    ensures Legal(Init, steps, order) && Run(Init, steps).pc == Over && Run(Init, steps).live == map[2 := order[i]]
  {
    steps := HandedOver(order, i, j);
    PassesRun(Run(Init, steps), |order| - j, order);
    RunAppend(Init, steps, Passes(|order| - j), order);
    steps := Extend(Init, steps + Passes(|order| - j), Leave, order);
  }

  /** An order of the final waits is safe exactly if starters come before what they start. */
  lemma OrderTheorem(order: seq<Kind>)
    requires IsOrder(order)
    ensures Quiescent(order) <==> StartersFirst(order)
  {
    if StartersFirst(order) {
      forall steps | Legal(Init, steps, order) && Run(Init, steps).pc == Over ensures Run(Init, steps).live == map[] {
        RunKeepsInv(Init, steps, order);
      }
    } else {
      var j, i :| 0 <= i < |order| && 0 <= j < |order| && i != j && MayStart(order[j], order[i]) && j >= i;
      var steps := LeftBehind(order, i, j);
      assert 2 in Run(Init, steps).live;
    }
  }

  /** The order the recorder uses: when `Wait` returns, every goroutine ever started has finished. */
  lemma WaitIsQuiescent()
    ensures Quiescent(WaitOrder)
  {
    OrderTheorem(WaitOrder);
  }

  predicate Comes(order: seq<Kind>, a: Kind, b: Kind) {
    exists i, j :: 0 <= i < j < |order| && order[i] == a && order[j] == b
  }

  /** In plain terms: the playlist goroutines are waited for before those of the comments, and these before those of the database. */
  lemma SafeOrders(order: seq<Kind>)
    requires IsOrder(order)
    ensures Quiescent(order) <==> Comes(order, Plst, Cmnt) && Comes(order, Cmnt, Db)
  {
    OrderTheorem(order);
    var p := IndexOf(Plst, order);
    var c := IndexOf(Cmnt, order);
    var d := IndexOf(Db, order);
    var m := IndexOf(Main, order);
    if StartersFirst(order) {
      assert p < c && c < d;
    }
    if Comes(order, Plst, Cmnt) && Comes(order, Cmnt, Db) {
      assert p < c && c < d;
      forall i, j | 0 <= i < |order| && 0 <= j < |order| && i != j && MayStart(order[i], order[j]) ensures i < j {
        assert order[i] == Plst || order[i] == Cmnt;
      }
    }
  }
}
