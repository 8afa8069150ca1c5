/** The goroutine manager: stop channels in a set behind a mutex, live goroutines in a wait group. */
module Gorman {
  import opened Options

  // ---------- The manager ----------

  class Chan {
    var closed: bool

    constructor ()
      ensures !closed
    {
      closed := false;
    }

    /** Closing a channel twice panics. */
    method Close()
      requires !closed
      modifies this
      ensures closed
    {
      closed := true;
    }
  }

  class GoroutineManager {
    var channels: set<Chan>

    constructor ()
      ensures channels == {} && Valid()
    {
      channels := {};
    }

    ghost predicate Valid()
      reads this, channels
    {
      forall c :: c in channels ==> !c.closed
    }

    method AddChan(c: Chan)
      requires Valid() && !c.closed
      modifies this
      ensures Valid() && channels == old(channels) + {c}
    {
      channels := channels + {c};
    }

    method DelChan(c: Chan)
      requires Valid()
      modifies this
      ensures Valid() && channels == old(channels) - {c}
    {
      channels := channels - {c};
    }

    /** Every registered channel is closed, once, and no other. */
    method Cancel()
      requires Valid()
      modifies this, channels
      ensures Valid() && channels == {}
      ensures forall c :: c in old(channels) ==> c.closed
    {
      while channels != {}
        invariant channels <= old(channels)
        invariant forall c :: c in old(channels) ==> c.closed == (c !in channels)
        decreases channels
      {
        var c :| c in channels;
        c.Close();
        channels := channels - {c};
      }
    }

    function Count(): nat
      reads this
    {
      |channels|
    }

    /** The part of `Go` before the goroutine runs. */
    method Register() returns (c: Chan)
      requires Valid()
      modifies this
      ensures Valid() && fresh(c) && channels == old(channels) + {c}
    {
      c := new Chan();
      AddChan(c);
    }
  }

  // ---------- All interleavings ----------

  // Goroutines and their stop channels go by number. Each step below is one the scheduler may interleave with any other.

  datatype Phase = Added | Registered | Running | Returned | Deregistered | Finished

  /** Who holds the channel mutex, and whether the work under it is done. */
  datatype Lock = Free | Adding(id: nat, done: bool) | Deleting(id: nat, done: bool) | Cancelling(closing: Option<nat>)

  datatype State = State(wg: int, phases: map<nat, Phase>, channels: set<nat>, closes: map<nat, nat>, lock: Lock)

  const Init := State(0, map[], {}, map[], Free)

  datatype Step =
    | WgAdd(id: nat) | LockAdd(id: nat) | Insert | Spawn(id: nat)                          // Go
    | Return(id: nat) | LockDelete(id: nat) | Remove | WgDone(id: nat)                     // the goroutine
    | LockCancel | CloseOne(id: nat) | Forget                                              // Cancel
    | Unlock

  predicate At(s: State, id: nat, p: Phase) {
    id in s.phases && s.phases[id] == p
  }

  predicate Enabled(s: State, step: Step) {
    match step
    case WgAdd(id) => id !in s.phases
    case LockAdd(id) => At(s, id, Added) && s.lock == Free
    case Insert => s.lock.Adding? && !s.lock.done
    case Spawn(id) => At(s, id, Registered) && s.lock != Adding(id, true)
    case Return(id) => At(s, id, Running)
    case LockDelete(id) => At(s, id, Returned) && s.lock == Free
    case Remove => s.lock.Deleting? && !s.lock.done
    case WgDone(id) => At(s, id, Deregistered) && s.lock != Deleting(id, true)
    case LockCancel => s.lock == Free
    case CloseOne(id) => s.lock == Cancelling(None) && id in s.channels
    case Forget => s.lock.Cancelling? && s.lock.closing.Some?
    case Unlock =>
      match s.lock
      case Free => false
      case Cancelling(c) => c == None && s.channels == {}
      case l => l.done
  }

  function Closes(s: State, id: nat): nat {
    if id in s.closes then s.closes[id] else 0
  }

  function Next(s: State, step: Step): State
    requires Enabled(s, step)
  {
    match step
    case WgAdd(id) => s.(wg := s.wg + 1, phases := s.phases[id := Added])
    case LockAdd(id) => s.(lock := Adding(id, false))
    case Insert => s.(channels := s.channels + {s.lock.id}, phases := s.phases[s.lock.id := Registered], lock := Adding(s.lock.id, true))
    case Spawn(id) => s.(phases := s.phases[id := Running])
    case Return(id) => s.(phases := s.phases[id := Returned])
    case LockDelete(id) => s.(lock := Deleting(id, false))
    case Remove => s.(channels := s.channels - {s.lock.id}, phases := s.phases[s.lock.id := Deregistered], lock := Deleting(s.lock.id, true))
    case WgDone(id) => s.(wg := s.wg - 1, phases := s.phases[id := Finished])
    case LockCancel => s.(lock := Cancelling(None))
    case CloseOne(id) => s.(closes := s.closes[id := Closes(s, id) + 1], lock := Cancelling(Some(id)))
    case Forget => s.(channels := s.channels - {s.lock.closing.value}, lock := Cancelling(None))
    case Unlock => s.(lock := Free)
  }

  /** The state after a run of steps, if each could be taken. */
  function Run(steps: seq<Step>): (s: Option<State>) {
    if steps == [] then Some(Init)
    else
      var before := Run(steps[..|steps| - 1]);
      var step := steps[|steps| - 1];
      if before.Some? && Enabled(before.value, step) then Some(Next(before.value, step)) else None
  }

  function Live(s: State): set<nat> {
    set id | id in s.phases && s.phases[id] != Finished
  }

  /** A registered channel is open, but for the moment in which `Cancel` has closed it and not yet removed it,
      and belongs to a goroutine that has not deregistered. */
  predicate ChannelOk(s: State, id: nat) {
    && (At(s, id, Registered) || At(s, id, Running) || At(s, id, Returned))
    && Closes(s, id) == if s.lock == Cancelling(Some(id)) then 1 else 0
  }

  predicate LockOk(s: State) {
    match s.lock
    case Free => true
    case Adding(id, done) => At(s, id, if done then Registered else Added)
    case Deleting(id, done) => At(s, id, if done then Deregistered else Returned)
    case Cancelling(c) => c.Some? ==> c.value in s.channels
  }

  /** A goroutine that is not registered any more while it may still run has been told to stop. */
  predicate Reached(s: State, id: nat) {
    At(s, id, Registered) || At(s, id, Running) || At(s, id, Returned) ==> id in s.channels || Closes(s, id) == 1
  }

  predicate Inv(s: State) {
    && s.wg == |Live(s)|
    && (forall id :: id in s.phases ==> Reached(s, id))
    && (forall id :: id in s.channels ==> ChannelOk(s, id))
    && (forall id :: id in s.closes ==> s.closes[id] <= 1 && id in s.phases && s.phases[id] != Added)
    && LockOk(s)
  }

  lemma LiveAfter(s: State, step: Step)
    requires Enabled(s, step) && s.wg == |Live(s)| && LockOk(s)
    ensures Next(s, step).wg == |Live(Next(s, step))|
  {
    var t := Next(s, step);
    match step
    case WgAdd(id) => assert Live(t) == Live(s) + {id};
    case WgDone(id) => assert Live(t) == Live(s) - {id} && id in Live(s);
    case _ => assert Live(t) == Live(s);
  }

  lemma ChannelsAfter(s: State, step: Step)
    requires Enabled(s, step) && Inv(s)
    ensures forall id :: id in Next(s, step).channels ==> ChannelOk(Next(s, step), id)
  {
    var t := Next(s, step);
    forall id | id in t.channels ensures ChannelOk(t, id) {
      if id in s.channels { assert ChannelOk(s, id); }
    }
  }

  lemma ReachedAfter(s: State, step: Step)
    requires Enabled(s, step) && Inv(s)
    ensures forall id :: id in Next(s, step).phases ==> Reached(Next(s, step), id)
  {
    var t := Next(s, step);
    forall id | id in t.phases ensures Reached(t, id) {
      if id in s.phases { assert Reached(s, id); }
      if id in s.channels { assert ChannelOk(s, id); }
    }
  }

  lemma StepKeepsInv(s: State, step: Step)
    requires Enabled(s, step) && Inv(s)
    ensures Inv(Next(s, step))
  {
    LiveAfter(s, step);
    ChannelsAfter(s, step);
    ReachedAfter(s, step);
  }

  lemma {:induction false} RunKeepsInv(steps: seq<Step>)
    requires Run(steps).Some?
    ensures Inv(Run(steps).value)
  {
    if steps == [] {
      assert Live(Init) == {};
    } else {
      RunKeepsInv(steps[..|steps| - 1]);
      StepKeepsInv(Run(steps[..|steps| - 1]).value, steps[|steps| - 1]);
    }
  }

  lemma SubsetSize(a: set<nat>, b: set<nat>)
    requires a <= b
    ensures |a| <= |b|
  {
    if a != {} {
      var x :| x in a;
      SubsetSize(a - {x}, b - {x});
    }
  }

  /** Under every interleaving of any number of `Go`, returns and `Cancel`: no channel is closed twice, a registered channel
      is open and its goroutine is still to deregister, there are never more channels than the wait group counts,
      so when the wait group is at zero there are none. */
  lemma ManagerSafe(steps: seq<Step>)
    requires Run(steps).Some?
    ensures var s := Run(steps).value;
      && (forall id :: Closes(s, id) <= 1)
      && (forall id :: id in s.channels ==> ChannelOk(s, id))
      && |s.channels| <= s.wg
      && (s.wg == 0 ==> s.channels == {} && forall id :: id in s.phases ==> s.phases[id] == Finished)
  {
    var s := Run(steps).value;
    RunKeepsInv(steps);
    assert s.channels <= Live(s) by {
      forall id | id in s.channels ensures id in Live(s) {
        assert ChannelOk(s, id);
      }
    }
    SubsetSize(s.channels, Live(s));
    if s.wg == 0 {
      assert Live(s) == {};
      forall id | id in s.phases ensures s.phases[id] == Finished {
        assert id !in Live(s);
      }
    }
  }

  /** And in every interleaving no goroutine is out of reach: from the moment it is registered until it has returned and deregistered
      its channel is registered, or was closed. */
  lemma NoneOutOfReach(steps: seq<Step>, id: nat)
    requires Run(steps).Some? && (At(Run(steps).value, id, Registered) || At(Run(steps).value, id, Running) || At(Run(steps).value, id, Returned))
    ensures var s := Run(steps).value;
      Closes(s, id) == (if id in s.channels && s.lock != Cancelling(Some(id)) then 0 else 1)
  {
    RunKeepsInv(steps);
    var s := Run(steps).value;
    assert Reached(s, id);
    if id in s.channels { assert ChannelOk(s, id); }
  }

  /** So a cancellation that ends has told every goroutine registered to stop. */
  lemma CancelReachesAll(steps: seq<Step>, id: nat)
    requires Run(steps).Some? && Run(steps).value.lock.Cancelling? && Enabled(Run(steps).value, Unlock)
    requires var s := Run(steps).value; At(s, id, Registered) || At(s, id, Running) || At(s, id, Returned)
    ensures Closes(Run(steps).value, id) == 1
  {
    NoneOutOfReach(steps, id);
  }
}
