/** What ends up in the media table, in terms of what was saved and when. */
module Stored {
  import opened Options
  import opened MediaDb

  /** Step `k` is `step`, and no interrupt came before it. */
  predicate SavedAt(steps: seq<Step>, k: nat, step: Step) {
    k < |steps| && steps[k] == step && Interrupt !in steps[..k]
  }

  /** The recorder saved this in time. */
  ghost predicate Saved(steps: seq<Step>, step: Step) {
    exists k: nat :: SavedAt(steps, k, step)
  }

  lemma SavedMore(steps: seq<Step>, last: Step, step: Step)
    ensures Saved(steps + [last], step) <==> Saved(steps, step) || (last == step && Interrupt !in steps)
  {
    var all := steps + [last];
    forall k: nat | SavedAt(steps, k, step) ensures SavedAt(all, k, step) {
      assert all[..k] == steps[..k];
    }
    forall k: nat | SavedAt(all, k, step) ensures Saved(steps, step) || (last == step && Interrupt !in steps) {
      if k < |steps| {
        assert all[..k] == steps[..k];
        assert SavedAt(steps, k, step);
      } else {
        assert all[..k] == steps;
      }
    }
    if last == step && Interrupt !in steps {
      assert all[..|steps|] == steps;
      assert SavedAt(all, |steps|, step);
    }
  }

  /** Every chunk in the table or on its way there was there before, or was saved with just these bytes. */
  ghost predicate Sourced(first: State, s: State, steps: seq<Step>) {
    && (forall n :: n in s.table && s.table[n].Held? ==>
          (n in first.table && first.table[n] == s.table[n]) || Saved(steps, Save200(n, s.table[n].chunk)))
    && (forall w :: w in s.queue && w.Replace200? ==> Saved(steps, Save200(w.seqno, w.chunk)))
  }

  /** Everything saved is in the table or on its way there, and nothing leaves the table. */
  ghost predicate Complete(first: State, s: State, steps: seq<Step>) {
    && (forall n, c :: Saved(steps, Save200(n, c)) ==> n in Selected(s.table) || n in Replaced(s.queue))
    && (forall n :: Saved(steps, Save404(n)) ==> n in s.table || n in Numbers(s.queue))
    && Selected(first.table) <= Selected(s.table) && first.table.Keys <= s.table.Keys
    && (s.interrupted <==> Interrupt in steps)
  }

  lemma QueueWithout(queue: seq<Write>, i: nat, w: Write)
    requires i < |queue|
    ensures w in queue <==> w in Without(queue, i) || w == queue[i]
  {
    assert queue == queue[..i] + [queue[i]] + queue[i + 1..];
  }

  lemma ExecSourced(first: State, s: State, steps: seq<Step>, i: nat)
    requires i < |s.queue| && Sourced(first, s, steps)
    ensures Sourced(first, Next(s, Exec(i)), steps + [Exec(i)])
  {
    var t, all := Next(s, Exec(i)), steps + [Exec(i)];
    forall n | n in t.table && t.table[n].Held?
      ensures (n in first.table && first.table[n] == t.table[n]) || Saved(all, Save200(n, t.table[n].chunk))
    {
      SavedMore(steps, Exec(i), Save200(n, t.table[n].chunk));
      assert s.queue[i] in s.queue;
    }
    forall w | w in t.queue && w.Replace200? ensures Saved(all, Save200(w.seqno, w.chunk)) {
      QueueWithout(s.queue, i, w);
      SavedMore(steps, Exec(i), Save200(w.seqno, w.chunk));
    }
  }

  lemma OtherSourced(first: State, s: State, steps: seq<Step>, step: Step)
    requires !step.Exec? && Sourced(first, s, steps) && (s.interrupted <==> Interrupt in steps)
    ensures Sourced(first, Next(s, step), steps + [step])
  {
    var t, all := Next(s, step), steps + [step];
    forall n | n in t.table && t.table[n].Held?
      ensures (n in first.table && first.table[n] == t.table[n]) || Saved(all, Save200(n, t.table[n].chunk))
    {
      SavedMore(steps, step, Save200(n, t.table[n].chunk));
    }
    forall w | w in t.queue && w.Replace200? ensures Saved(all, Save200(w.seqno, w.chunk)) {
      SavedMore(steps, step, Save200(w.seqno, w.chunk));
    }
  }

  lemma ExecComplete(first: State, s: State, steps: seq<Step>, i: nat)
    requires i < |s.queue| && Complete(first, s, steps)
    ensures Complete(first, Next(s, Exec(i)), steps + [Exec(i)])
  {
    var t, all, w := Next(s, Exec(i)), steps + [Exec(i)], s.queue[i];
    SelectedOne(s.table, w);
    WithoutOne(s.queue, i);
    forall n, c | Saved(all, Save200(n, c)) ensures n in Selected(t.table) || n in Replaced(t.queue) {
      SavedMore(steps, Exec(i), Save200(n, c));
    }
    forall n | Saved(all, Save404(n)) ensures n in t.table || n in Numbers(t.queue) {
      SavedMore(steps, Exec(i), Save404(n));
      if n in Numbers(s.queue) {
        var v :| v in s.queue && v.seqno == n;
        QueueWithout(s.queue, i, v);
      }
    }
  }

  lemma OtherComplete(first: State, s: State, steps: seq<Step>, step: Step)
    requires !step.Exec? && Complete(first, s, steps)
    ensures Complete(first, Next(s, step), steps + [step])
  {
    var t, all := Next(s, step), steps + [step];
    assert forall w :: w in s.queue ==> w in t.queue;
    forall n, c | Saved(all, Save200(n, c)) ensures n in Selected(t.table) || n in Replaced(t.queue) {
      SavedMore(steps, step, Save200(n, c));
      if step == Save200(n, c) && !s.interrupted { assert Replace200(n, c) in t.queue; }
    }
    forall n | Saved(all, Save404(n)) ensures n in t.table || n in Numbers(t.queue) {
      SavedMore(steps, step, Save404(n));
      if step == Save404(n) && !s.interrupted { assert Ignore404(n) in t.queue; }
    }
  }

  lemma {:induction false} RunStores(first: State, steps: seq<Step>)
    requires Starts(first) && Run(first, steps).Some?
    ensures Sourced(first, Run(first, steps).value, steps) && Complete(first, Run(first, steps).value, steps)
    decreases |steps|
  {
    if steps != [] {
      var front, step := steps[..|steps| - 1], steps[|steps| - 1];
      var s := Run(first, front).value;
      RunStores(first, front);
      assert front + [step] == steps;
      if step.Exec? {
        ExecSourced(first, s, front, step.i);
        ExecComplete(first, s, front, step.i);
      } else {
        OtherSourced(first, s, front, step);
        OtherComplete(first, s, front, step);
      }
    }
  }

  /** Once the queue has drained, in whatever order: every chunk saved in time is selected, every missing one is noted, nothing else has
      come, and what is stored are the bytes that were saved, or were there before. */
  lemma StoredAsSaved(first: State, steps: seq<Step>)
    requires Starts(first) && Run(first, steps).Some? && Run(first, steps).value.queue == []
    ensures var s := Run(first, steps).value;
      && (forall n :: n in Selected(s.table) <==> n in Selected(first.table) || exists c :: Saved(steps, Save200(n, c)))
      && (forall n :: Saved(steps, Save404(n)) ==> n in s.table)
      && (forall n :: n in s.table && s.table[n].Held? ==>
            (n in first.table && first.table[n] == s.table[n]) || Saved(steps, Save200(n, s.table[n].chunk)))
  {
    RunStores(first, steps);
    var s := Run(first, steps).value;
    forall n ensures n in Selected(s.table) <==> n in Selected(first.table) || exists c :: Saved(steps, Save200(n, c)) {
      if n in Selected(s.table) && n !in Selected(first.table) { assert Saved(steps, Save200(n, s.table[n].chunk)); }
    }
  }
}
