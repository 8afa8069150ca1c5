/** What the return code handler does bring about: restarts are asked for, after growing delays, and every code stops what it is to
    stop. */
module RestartAsked {
  import opened Options
  import opened Restart

  // ---------- One handler alone ----------

  /** A step can be added to a run. */
  lemma OneMore(steps: seq<Step>, step: Step, timeshift: bool)
    requires Run(steps, timeshift).Some? && Enabled(Run(steps, timeshift).value, step)
    ensures Run(steps + [step], timeshift) == Some(Next(Run(steps, timeshift).value, step, timeshift))
  {
    assert (steps + [step])[..|steps|] == steps;
  }

  /** The run `steps` has led to the memory `m`, with handler `id` at `pc`. */
  predicate Stands(steps: seq<Step>, timeshift: bool, m: Memory, id: nat, code: Code, pc: Pc) {
    var s := Run(steps, timeshift);
    s.Some? && s.value.memory == m && id in s.value.handlers && s.value.handlers[id] == Handler(code, pc)
  }

  lemma Moves(steps: seq<Step>, timeshift: bool, m: Memory, id: nat, code: Code, pc: Pc) returns (more: seq<Step>)
    requires Stands(steps, timeshift, m, id, code, pc) && CanMove(m, pc)
    ensures more == steps + [Do(id)]
    ensures Stands(more, timeshift, Writes(m, id, pc), id, code, Goes(m, Handler(code, pc), timeshift))
  {
    more := steps + [Do(id)];
    OneMore(steps, Do(id), timeshift);
  }

  /** `more` is `steps` and then `n` steps of the handler. */
  predicate IsAlone(steps: seq<Step>, id: nat, more: seq<Step>, n: nat) {
    |more| == |steps| + n && more[..|steps|] == steps && forall i :: |steps| <= i < |more| ==> more[i] == Do(id)
  }

  lemma AloneMore(steps: seq<Step>, id: nat, more: seq<Step>, n: nat)
    requires IsAlone(steps, id, more, n)
    ensures IsAlone(steps, id, more + [Do(id)], n + 1)
  {
  }

  /** From the request for the mutex: the delay and the flag are set. */
  lemma Locks(steps: seq<Step>, timeshift: bool, m: Memory, id: nat, code: Code, d: int, a: Stop) returns (more: seq<Step>)
    requires Stands(steps, timeshift, m, id, code, Mark(d, a)) && m.lock == Free && !m.restartMain && !m.finish
    ensures Stands(more, timeshift, m.(lock := Held(id), startDelay := d), id, code, WriteFlag(a)) && IsAlone(steps, id, more, 3)
  {
    more := Moves(steps, timeshift, m, id, code, Mark(d, a));
    AloneMore(steps, id, steps, 0);
    var m1 := m.(lock := Held(id));
    more := Moves(more, timeshift, m1, id, code, Check(d, a));
    AloneMore(steps, id, steps + [Do(id)], 1);
    more := Moves(more, timeshift, m1, id, code, WriteDelay(d, a));
    AloneMore(steps, id, steps + [Do(id)] + [Do(id)], 2);
  }

  lemma Unlocks(steps: seq<Step>, timeshift: bool, m: Memory, id: nat, code: Code, a: Stop) returns (more: seq<Step>)
    requires Stands(steps, timeshift, m, id, code, WriteFlag(a))
    ensures Stands(more, timeshift, m.(lock := Free, restartMain := true), id, code, Over(a)) && IsAlone(steps, id, more, 3)
  {
    more := Moves(steps, timeshift, m, id, code, WriteFlag(a));
    AloneMore(steps, id, steps, 0);
    var m1 := m.(restartMain := true);
    more := Moves(more, timeshift, m1, id, code, Release(a));
    AloneMore(steps, id, steps + [Do(id)], 1);
    more := Moves(more, timeshift, m1.(lock := Free), id, code, Cancel(a));
    AloneMore(steps, id, steps + [Do(id)] + [Do(id)], 2);
  }

  lemma AloneTwice(a: seq<Step>, id: nat, b: seq<Step>, n: nat, c: seq<Step>, k: nat)
    requires IsAlone(a, id, b, n) && IsAlone(b, id, c, k)
    ensures IsAlone(a, id, c, n + k)
  {
    assert forall i :: 0 <= i < |b| ==> c[i] == b[i];
    assert c[..|a|] == b[..|a|];
  }

  lemma Marks(steps: seq<Step>, timeshift: bool, m: Memory, id: nat, code: Code, d: int, a: Stop) returns (more: seq<Step>)
    requires Stands(steps, timeshift, m, id, code, Mark(d, a)) && m.lock == Free && !m.restartMain && !m.finish
    ensures Stands(more, timeshift, m.(startDelay := d, restartMain := true), id, code, Over(a)) && IsAlone(steps, id, more, 6)
  {
    var half := Locks(steps, timeshift, m, id, code, d, a);
    more := Unlocks(half, timeshift, m.(lock := Held(id), startDelay := d), id, code, a);
    AloneTwice(steps, id, half, 3, more, 3);
  }

  /** The delay before the next attempt, after a delay of `d`. */
  predicate IsNextDelay(d: int, next: int) {
    && (d == 0 ==> next == 1) && (d == 1 ==> next == 3)
    && (3 <= d <= 12 ==> next == d + 1) && (d == 13 || d == 60 ==> next == 60)
  }

  /** A network error asks for a restart: wherever a run stands with the mutex free and neither a restart nor the end pending, the
      steps of its handler alone set the flag and the next longer delay, and stop the playlist and comment goroutines. */
  lemma NetworkErrorRestarts(steps: seq<Step>, timeshift: bool, id: nat, code: Code) returns (more: seq<Step>, d: int)
    requires code == NetworkError || code == MainTemporarilyError
    requires Run(steps, timeshift).Some? && id !in Run(steps, timeshift).value.handlers
    requires var m := Run(steps, timeshift).value.memory; m.lock == Free && !m.restartMain && !m.finish
    ensures IsAlone(steps + [Begin(id, code)], id, more, 7)
    ensures var m := Run(steps, timeshift).value.memory;
      IsNextDelay(m.startDelay, d) && Stands(more, timeshift, m.(startDelay := d, restartMain := true), id, code, Over(PC))
  {
    var m := Run(steps, timeshift).value.memory;
    RunKeepsInv(steps, timeshift);
    OneMore(steps, Begin(id, code), timeshift);
    var first := steps + [Begin(id, code)];
    var second := Moves(first, timeshift, m, id, code, ReadDelay);
    AloneMore(first, id, first, 0);
    d := NextDelay(m.startDelay);
    more := Marks(second, timeshift, m, id, code, d, PC);
    AloneTwice(first, id, second, 1, more, 6);
  }

  /** A refused playlist, unless interrupted, and an unknown quality ask for a restart at once, and stop the playlist goroutines. */
  lemma OthersRestart(steps: seq<Step>, timeshift: bool, id: nat, code: Code) returns (more: seq<Step>, n: nat)
    requires code == Playlist403 || code == MainInvalidStreamQuality
    requires Run(steps, timeshift).Some? && id !in Run(steps, timeshift).value.handlers
    requires var m := Run(steps, timeshift).value.memory;
      m.lock == Free && !m.restartMain && !m.finish && (code == Playlist403 ==> !m.interrupted)
    ensures IsAlone(steps + [Begin(id, code)], id, more, n)
    ensures Stands(more, timeshift, Run(steps, timeshift).value.memory.(startDelay := 0, restartMain := true), id, code, Over(P))
  {
    var m := Run(steps, timeshift).value.memory;
    OneMore(steps, Begin(id, code), timeshift);
    var first := steps + [Begin(id, code)];
    if code == Playlist403 {
      var second := Moves(first, timeshift, m, id, code, ReadInterrupted);
      AloneMore(first, id, first, 0);
      more := Marks(second, timeshift, m, id, code, 0, P);
      n := 7;
      AloneTwice(first, id, second, 1, more, 6);
    } else {
      more := Marks(first, timeshift, m, id, code, 0, P);
      n := 6;
    }
  }

  lemma MovesOn(start: seq<Step>, steps: seq<Step>, n: nat, timeshift: bool, m: Memory, id: nat, code: Code, pc: Pc)
    returns (more: seq<Step>, k: nat)
    requires IsAlone(start, id, steps, n) && Stands(steps, timeshift, m, id, code, pc) && CanMove(m, pc)
    ensures k == n + 1 && IsAlone(start, id, more, k) && Stands(more, timeshift, Writes(m, id, pc), id, code, Goes(m, Handler(code, pc), timeshift))
  {
    k := n + 1;
    more := Moves(steps, timeshift, m, id, code, pc);
    AloneMore(start, id, steps, n);
  }

  lemma Begins(steps: seq<Step>, timeshift: bool, id: nat, code: Code) returns (first: seq<Step>, m: Memory)
    requires Run(steps, timeshift).Some? && id !in Run(steps, timeshift).value.handlers
    ensures first == steps + [Begin(id, code)] && m == Run(steps, timeshift).value.memory
    ensures Stands(first, timeshift, m, id, code, First(code)) && IsAlone(first, id, first, 0)
  {
    OneMore(steps, Begin(id, code), timeshift);
    first, m := steps + [Begin(id, code)], Run(steps, timeshift).value.memory;
  }

  /** Once interrupted, a refused playlist stops the playlist goroutines and changes nothing else. */
  lemma InterruptedStops(steps: seq<Step>, timeshift: bool, id: nat) returns (more: seq<Step>, n: nat)
    requires Run(steps, timeshift).Some? && id !in Run(steps, timeshift).value.handlers && Run(steps, timeshift).value.memory.interrupted
    ensures IsAlone(steps + [Begin(id, Playlist403)], id, more, n)
    ensures Stands(more, timeshift, Run(steps, timeshift).value.memory, id, Playlist403, Over(P))
  {
    var first, m := Begins(steps, timeshift, id, Playlist403);
    more, n := MovesOn(first, first, 0, timeshift, m, id, Playlist403, ReadInterrupted);
    more, n := MovesOn(first, more, n, timeshift, m, id, Playlist403, Cancel(P));
  }

  /** The end of the playlist is noted, and stops everything, except that in timeshift comments that have begun and are not done may
      go on. */
  lemma PlaylistEnds(steps: seq<Step>, timeshift: bool, id: nat) returns (more: seq<Step>, n: nat)
    requires Run(steps, timeshift).Some? && id !in Run(steps, timeshift).value.handlers
    ensures IsAlone(steps + [Begin(id, PlaylistEnd)], id, more, n)
    ensures var m := Run(steps, timeshift).value.memory;
      Stands(more, timeshift, m.(finish := true), id, PlaylistEnd,
             Over(if timeshift && m.commentStarted && !m.commentDone then Nothing else PC))
  {
    var first, m := Begins(steps, timeshift, id, PlaylistEnd);
    var m1 := m.(finish := true);
    more, n := MovesOn(first, first, 0, timeshift, m, id, PlaylistEnd, WriteFinish);
    if timeshift {
      more, n := MovesOn(first, more, n, timeshift, m1, id, PlaylistEnd, ReadCommentDone);
      if !m.commentDone { more, n := MovesOn(first, more, n, timeshift, m1, id, PlaylistEnd, ReadCommentStarted); }
    }
    if !(timeshift && m.commentStarted && !m.commentDone) {
      more, n := MovesOn(first, more, n, timeshift, m1, id, PlaylistEnd, Cancel(PC));
    }
  }

  /** The end of the comments is noted, and stops everything if the playlist or the programme has ended, nothing otherwise. */
  lemma CommentsEnd(steps: seq<Step>, timeshift: bool, id: nat) returns (more: seq<Step>, n: nat)
    requires Run(steps, timeshift).Some? && id !in Run(steps, timeshift).value.handlers
    ensures IsAlone(steps + [Begin(id, CommentDone)], id, more, n)
    ensures var m := Run(steps, timeshift).value.memory;
      Stands(more, timeshift, m.(commentDone := true), id, CommentDone, Over(if m.finish then PC else Nothing))
  {
    var first, m := Begins(steps, timeshift, id, CommentDone);
    var m1 := m.(commentDone := true);
    more, n := MovesOn(first, first, 0, timeshift, m, id, CommentDone, WriteCommentDone);
    more, n := MovesOn(first, more, n, timeshift, m1, id, CommentDone, ReadFinish);
    if m.finish {
      more, n := MovesOn(first, more, n, timeshift, m1, id, CommentDone, Cancel(PC));
    }
  }

  // ---------- Over all runs ----------

  /** The restart in `Wait` has looked at the flag since handler `id` began. */
  predicate CheckedSince(steps: seq<Step>, timeshift: bool, id: nat)
    decreases |steps|
  {
    steps != []
    && var front, step := steps[..|steps| - 1], steps[|steps| - 1];
       CheckedSince(front, timeshift, id)
       || (step == WaitCheck && Run(front, timeshift).Some? && id in Run(front, timeshift).value.handlers)
  }

  /** Past the place where it asks for a restart. */
  predicate HasAsked(pc: Pc) {
    pc.Release? || pc.Cancel? || pc.Over?
  }

  /** Nothing is owed to a handler: the restart is pending, or was looked at, or the end or an interrupt makes it needless. */
  predicate Served(m: Memory, h: Handler, checked: bool) {
    && (h.pc.ReadInterrupted? ==> h.code == Playlist403)
    && (Restarts(h.code) && HasAsked(h.pc) ==>
      m.restartMain || m.finish || checked || (h.code == Playlist403 && m.interrupted))
  }

  predicate Asking(h: Handler) {
    Restarts(h.code) ==> WillStop(h.pc, StoppedBy(h.code))
  }

  lemma MoverServed(m: Memory, id: nat, h: Handler, checked: bool, timeshift: bool)
    requires Served(m, h, checked) && Asking(h) && CanMove(m, h.pc)
    ensures Served(Writes(m, id, h.pc), Handler(h.code, Goes(m, h, timeshift)), checked)
  {
  }

  lemma OtherServed(m: Memory, id: nat, h: Handler, other: Handler, checked: bool)
    requires Served(m, other, checked)
    ensures Served(Writes(m, id, h.pc), other, checked)
  {
  }

  lemma OutsideServed(m: Memory, step: Step, h: Handler, checked: bool)
    requires Served(m, h, checked) && !step.Begin? && !step.Do?
    ensures Served(Outside(m, step), h, checked || step == WaitCheck)
  {
  }

  lemma StepServed(steps: seq<Step>, timeshift: bool, id: nat)
    requires steps != [] && Run(steps, timeshift).Some? && id in Run(steps, timeshift).value.handlers
    requires var front := steps[..|steps| - 1];
      id in Run(front, timeshift).value.handlers ==>
        var s := Run(front, timeshift).value; Served(s.memory, s.handlers[id], CheckedSince(front, timeshift, id))
    ensures var s := Run(steps, timeshift).value; Served(s.memory, s.handlers[id], CheckedSince(steps, timeshift, id))
  {
    var front, step := steps[..|steps| - 1], steps[|steps| - 1];
    var s, checked := Run(front, timeshift).value, CheckedSince(front, timeshift, id);
    match step
    case Begin(_, _) =>
    case Do(i) =>
      if i == id {
        RunKeepsInv(front, timeshift);
        assert HandlerOk(s.memory, id, s.handlers[id], timeshift);
        MoverServed(s.memory, id, s.handlers[id], checked, timeshift);
      } else {
        OtherServed(s.memory, i, s.handlers[i], s.handlers[id], checked);
      }
    case _ => OutsideServed(s.memory, step, s.handlers[id], checked);
  }

  /** However handlers, the restart and the interrupt interleave: once a handler that is to restart the recording is over, the flag is
      set, or the restart has looked at it since the handler began, or the recording is to finish, or, for a refused playlist, was
      interrupted. */
  lemma {:induction false} RestartNotLost(steps: seq<Step>, timeshift: bool, id: nat)
    requires Run(steps, timeshift).Some? && id in Run(steps, timeshift).value.handlers
    ensures var s := Run(steps, timeshift).value; Served(s.memory, s.handlers[id], CheckedSince(steps, timeshift, id))
    decreases |steps|
  {
    var front := steps[..|steps| - 1];
    if id in Run(front, timeshift).value.handlers { RestartNotLost(front, timeshift, id); }
    StepServed(steps, timeshift, id);
  }

  // ---------- What every code stops ----------

  /** The codes whose handlers neither restart nor watch each other, by what they stop. */
  function Stopped(code: Code): Stop {
    match code
    case Ok => Nothing
    case Delay => Nothing
    case GotSignal => Nothing
    case MainWsError => P
    case CommentWsError => C
    case CommentSaveError => C
    case _ => PC
  }

  predicate IsPlain(code: Code) {
    !Restarts(code) && code != PlaylistEnd && code != CommentDone
  }

  predicate PlainOk(m: Memory, h: Handler) {
    IsPlain(h.code) ==>
      || h.pc == Cancel(Stopped(h.code)) || h.pc == Over(Stopped(h.code))
      || (h.code == MainEndProgram && h.pc == WriteFinish)
  }

  predicate EndNoted(m: Memory, h: Handler) {
    h.code == MainEndProgram || h.code == PlaylistEnd ==> h.pc == WriteFinish || m.finish
  }

  lemma MoverPlain(m: Memory, id: nat, h: Handler, timeshift: bool)
    requires PlainOk(m, h) && EndNoted(m, h) && CanMove(m, h.pc)
    ensures PlainOk(Writes(m, id, h.pc), Handler(h.code, Goes(m, h, timeshift)))
    ensures EndNoted(Writes(m, id, h.pc), Handler(h.code, Goes(m, h, timeshift)))
  {
  }

  lemma {:induction false} AllPlain(steps: seq<Step>, timeshift: bool, id: nat)
    requires Run(steps, timeshift).Some? && id in Run(steps, timeshift).value.handlers
    ensures var s := Run(steps, timeshift).value; PlainOk(s.memory, s.handlers[id]) && EndNoted(s.memory, s.handlers[id])
    decreases |steps|
  {
    var front, step := steps[..|steps| - 1], steps[|steps| - 1];
    var s := Run(front, timeshift).value;
    if id in s.handlers {
      AllPlain(front, timeshift, id);
      if step == Do(id) { MoverPlain(s.memory, id, s.handlers[id], timeshift); }
      else if step.Do? { FinishStays(s.memory, step.id, s.handlers[step.id].pc); }
    }
  }

  lemma FinishStays(m: Memory, id: nat, pc: Pc)
    ensures m.finish ==> Writes(m, id, pc).finish
  {
  }

  /** In every run a handler that is over has stopped what its code says, and the end of the programme or of the playlist is noted. */
  lemma EveryCodeStops(steps: seq<Step>, timeshift: bool, id: nat)
    requires Run(steps, timeshift).Some? && id in Run(steps, timeshift).value.handlers
    requires Run(steps, timeshift).value.handlers[id].pc.Over?
    ensures var s := Run(steps, timeshift).value; var h := s.handlers[id];
      && (IsPlain(h.code) ==> h.pc == Over(Stopped(h.code)))
      && (h.code == MainEndProgram || h.code == PlaylistEnd ==> s.memory.finish)
  {
    AllPlain(steps, timeshift, id);
  }
}
