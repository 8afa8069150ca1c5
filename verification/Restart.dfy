/** The return code handler. Every goroutine runs it when it ends, so its reads and writes of the recorder's flags
    interleave with those of other handlers and of the restart in `Wait`. */
module Restart {
  import opened Options

  datatype Code =
    | Ok | Interrupt | MainWsError | MainDisconnect | MainEndProgram | MainInvalidStreamQuality | MainTemporarilyError
    | PlaylistEnd | Playlist403 | PlaylistError | Delay | CommentWsError | CommentSaveError | CommentDone
    | GotSignal | ErrorShutdown | NetworkError

  /** Which goroutines a handler cancels: playlist, comment, both. */
  datatype Stop = Nothing | P | C | PC

  /** Where a handler is. Between taking and releasing the restart mutex there are four places. */
  datatype Pc =
    | ReadDelay | Mark(delay: int, after: Stop)
    | Check(delay: int, after: Stop) | WriteDelay(delay: int, after: Stop) | WriteFlag(after: Stop) | Release(after: Stop)
    | ReadInterrupted
    | WriteFinish | ReadCommentDone | ReadCommentStarted
    | WriteCommentDone | ReadFinish
    | Cancel(stop: Stop) | Over(stopped: Stop)

  datatype Handler = Handler(code: Code, pc: Pc)

  datatype Lock = Free | Held(id: nat) | Waiting(checked: bool)

  datatype Memory = Memory(
    startDelay: int, restartMain: bool, finish: bool,
    commentDone: bool, commentStarted: bool, interrupted: bool, lock: Lock)

  /** `late` counts the restarts made after `finish` was set. */
  datatype State = State(memory: Memory, handlers: map<nat, Handler>, late: nat)

  const Init := State(Memory(0, false, false, false, false, false, Free), map[], 0)

  datatype Step =
    | Begin(id: nat, code: Code) | Do(id: nat)
    | WaitLock | WaitCheck | WaitRelease
    | SetCommentStarted(b: bool) | SetInterrupted

  function First(code: Code): Pc {
    match code
    case NetworkError => ReadDelay
    case MainTemporarilyError => ReadDelay
    case Playlist403 => ReadInterrupted
    case PlaylistEnd => WriteFinish
    case MainEndProgram => WriteFinish
    case MainInvalidStreamQuality => Mark(0, P)
    case CommentDone => WriteCommentDone
    case MainWsError => Cancel(P)
    case CommentWsError => Cancel(C)
    case CommentSaveError => Cancel(C)
    case Ok => Over(Nothing)
    case Delay => Over(Nothing)
    case GotSignal => Over(Nothing)
    case _ => Cancel(PC)
  }

  function NextDelay(delay: int): int {
    if delay < 1 then 1 else if delay < 3 then 3 else if delay < 13 then delay + 1 else 60
  }

  /** The mutex blocks only the two operations that take it. */
  predicate CanMove(m: Memory, pc: Pc) {
    !pc.Over? && (pc.ReadDelay? || pc.Mark? ==> m.lock == Free)
  }

  predicate Enabled(s: State, step: Step) {
    match step
    case Begin(id, _) => id !in s.handlers
    case Do(id) => id in s.handlers && CanMove(s.memory, s.handlers[id].pc)
    case WaitLock => s.memory.lock == Free
    case WaitCheck => s.memory.lock == Waiting(false)
    case WaitRelease => s.memory.lock == Waiting(true)
    case _ => true
  }

  /** One read or write of a handler: where it goes next, and what it leaves in the memory. */
  function Goes(m: Memory, h: Handler, timeshift: bool): Pc {
    match h.pc
    case ReadDelay => Mark(NextDelay(m.startDelay), PC)
    case Mark(d, a) => Check(d, a)
    case Check(d, a) => if !m.restartMain && !m.finish then WriteDelay(d, a) else Release(a)
    case WriteDelay(d, a) => WriteFlag(a)
    case WriteFlag(a) => Release(a)
    case Release(a) => Cancel(a)
    case ReadInterrupted => if m.interrupted then Cancel(P) else Mark(0, P)
    case WriteFinish => if timeshift && h.code == PlaylistEnd then ReadCommentDone else Cancel(PC)
    case ReadCommentDone => if m.commentDone then Cancel(PC) else ReadCommentStarted
    case ReadCommentStarted => if m.commentStarted then Over(Nothing) else Cancel(PC)
    case WriteCommentDone => ReadFinish
    case ReadFinish => if m.finish then Cancel(PC) else Over(Nothing)
    case Cancel(stop) => Over(stop)
    case Over(_) => h.pc
  }

  function Writes(m: Memory, id: nat, pc: Pc): Memory {
    match pc
    case Mark(_, _) => m.(lock := Held(id))
    case WriteDelay(d, _) => m.(startDelay := d)
    case WriteFlag(_) => m.(restartMain := true)
    case Release(_) => m.(lock := Free)
    case WriteFinish => m.(finish := true)
    case WriteCommentDone => m.(commentDone := true)
    case _ => m
  }

  /** The steps of the other goroutines: the restart in `Wait`, the comment goroutine and the interrupt. */
  function Outside(m: Memory, step: Step): Memory {
    match step
    case WaitLock => m.(lock := Waiting(false))
    case WaitCheck => m.(lock := Waiting(true), restartMain := false)
    case WaitRelease => m.(lock := Free)
    case SetCommentStarted(b) => m.(commentStarted := b)
    case SetInterrupted => m.(interrupted := true)
    case _ => m
  }

  function LateRestart(m: Memory, step: Step): nat {
    if step == WaitCheck && m.restartMain && m.finish then 1 else 0
  }

  function Next(s: State, step: Step, timeshift: bool): State
    requires Enabled(s, step)
  {
    match step
    case Begin(id, code) => s.(handlers := s.handlers[id := Handler(code, First(code))])
    case Do(id) =>
      var h := s.handlers[id];
      s.(memory := Writes(s.memory, id, h.pc), handlers := s.handlers[id := Handler(h.code, Goes(s.memory, h, timeshift))])
    case _ =>
      s.(memory := Outside(s.memory, step), late := s.late + LateRestart(s.memory, step))
  }

  function Run(steps: seq<Step>, timeshift: bool): Option<State> {
    if steps == [] then Some(Init)
    else
      var before := Run(steps[..|steps| - 1], timeshift);
      var step := steps[|steps| - 1];
      if before.Some? && Enabled(before.value, step) then Some(Next(before.value, step, timeshift)) else None
  }

  // ---------- Invariants ----------

  predicate IsDelay(d: int) {
    d == 0 || d == 1 || 3 <= d <= 13 || d == 60
  }

  predicate InLock(pc: Pc) {
    pc.Check? || pc.WriteDelay? || pc.WriteFlag? || pc.Release?
  }

  /** Past the check, and the flag not yet written. */
  predicate Marking(pc: Pc) {
    pc.WriteDelay? || pc.WriteFlag?
  }

  predicate DelayOk(pc: Pc) {
    pc.Mark? || pc.Check? || pc.WriteDelay? ==> IsDelay(pc.delay)
  }

  /** Where a "playlist end" handler can be, and what it has written by then. */
  predicate EndOk(m: Memory, pc: Pc, timeshift: bool) {
    match pc
    case WriteFinish => true
    case ReadCommentDone => m.finish && timeshift
    case ReadCommentStarted => m.finish && timeshift
    case Cancel(stop) => m.finish && stop == PC
    case Over(stop) => m.finish && (stop == PC || (timeshift && stop == Nothing))
    case _ => false
  }

  /** Likewise for a "comment done" handler. */
  predicate DoneOk(m: Memory, pc: Pc) {
    match pc
    case WriteCommentDone => true
    case ReadFinish => m.commentDone
    case Cancel(stop) => m.commentDone && stop == PC
    case Over(stop) => m.commentDone && (stop == PC || stop == Nothing)
    case _ => false
  }

  /** The codes that ask for a restart, and what they stop. */
  predicate Restarts(code: Code) {
    code == NetworkError || code == MainTemporarilyError || code == Playlist403 || code == MainInvalidStreamQuality
  }

  function StoppedBy(code: Code): Stop
    requires Restarts(code)
  {
    if code == NetworkError || code == MainTemporarilyError then PC else P
  }

  /** On the way to stopping `stop`. */
  predicate WillStop(pc: Pc, stop: Stop) {
    match pc
    case Mark(_, a) => a == stop
    case Check(_, a) => a == stop
    case WriteDelay(_, a) => a == stop
    case WriteFlag(a) => a == stop
    case Release(a) => a == stop
    case Cancel(a) => a == stop
    case Over(a) => a == stop
    case ReadDelay => stop == PC
    case ReadInterrupted => stop == P
    case _ => false
  }

  predicate HandlerOk(m: Memory, id: nat, h: Handler, timeshift: bool) {
    && DelayOk(h.pc)
    && (h.code == PlaylistEnd ==> EndOk(m, h.pc, timeshift))
    && (h.code == CommentDone ==> DoneOk(m, h.pc))
    && (Restarts(h.code) ==> WillStop(h.pc, StoppedBy(h.code)))
    && (InLock(h.pc) ==> m.lock == Held(id))
    && (Marking(h.pc) ==> !m.restartMain)
  }

  predicate HandlersOk(s: State, timeshift: bool) {
    forall id :: id in s.handlers ==> HandlerOk(s.memory, id, s.handlers[id], timeshift)
  }

  predicate IsMarking(s: State) {
    s.memory.lock.Held? && s.memory.lock.id in s.handlers && Marking(s.handlers[s.memory.lock.id].pc)
  }

  predicate LateOk(s: State) {
    if s.memory.finish then s.late + (if s.memory.restartMain || IsMarking(s) then 1 else 0) <= 1 else s.late == 0
  }

  /** A comment handler that stopped nothing saw no playlist end, so whoever ends the playlist after it sees its flag. */
  predicate Watched(c: Handler, e: Handler) {
    c == Handler(CommentDone, Over(Nothing)) && e.code == PlaylistEnd
    ==> e.pc == WriteFinish || e.pc == ReadCommentDone || e.pc == Cancel(PC) || e.pc == Over(PC)
  }

  predicate EachOther(s: State) {
    forall c, e :: c in s.handlers && e in s.handlers ==> Watched(s.handlers[c], s.handlers[e])
  }

  predicate Inv(s: State, timeshift: bool) {
    IsDelay(s.memory.startDelay) && HandlersOk(s, timeshift) && LateOk(s) && EachOther(s)
  }

  /** What a step leaves alone as far as a handler that does not move is concerned. */
  predicate Kept(m: Memory, n: Memory, id: nat) {
    && (m.finish ==> n.finish) && (m.commentDone ==> n.commentDone)
    && (m.lock == Held(id) ==> n.lock == Held(id) && (!m.restartMain ==> !n.restartMain))
  }

  lemma StillOk(m: Memory, n: Memory, id: nat, h: Handler, timeshift: bool)
    requires HandlerOk(m, id, h, timeshift) && Kept(m, n, id)
    ensures HandlerOk(n, id, h, timeshift)
  {
  }

  lemma MoverDelay(m: Memory, id: nat, h: Handler, timeshift: bool)
    requires CanMove(m, h.pc) && IsDelay(m.startDelay) && DelayOk(h.pc)
    ensures IsDelay(Writes(m, id, h.pc).startDelay) && DelayOk(Goes(m, h, timeshift))
  {
  }

  lemma MoverPlace(m: Memory, id: nat, h: Handler, timeshift: bool)
    requires CanMove(m, h.pc) && HandlerOk(m, id, h, timeshift)
    ensures h.code == PlaylistEnd ==> EndOk(Writes(m, id, h.pc), Goes(m, h, timeshift), timeshift)
    ensures h.code == CommentDone ==> DoneOk(Writes(m, id, h.pc), Goes(m, h, timeshift))
  {
  }

  lemma MoverStops(m: Memory, h: Handler, stop: Stop, timeshift: bool)
    requires WillStop(h.pc, stop)
    ensures WillStop(Goes(m, h, timeshift), stop)
  {
  }

  lemma MoverLocks(m: Memory, id: nat, h: Handler, timeshift: bool)
    requires CanMove(m, h.pc) && (InLock(h.pc) ==> m.lock == Held(id)) && (Marking(h.pc) ==> !m.restartMain)
    ensures var n, pc := Writes(m, id, h.pc), Goes(m, h, timeshift);
      (InLock(pc) ==> n.lock == Held(id)) && (Marking(pc) ==> !n.restartMain)
  {
  }

  lemma MoverOk(m: Memory, id: nat, h: Handler, timeshift: bool)
    requires CanMove(m, h.pc) && IsDelay(m.startDelay) && HandlerOk(m, id, h, timeshift)
    ensures var n := Writes(m, id, h.pc);
      IsDelay(n.startDelay) && HandlerOk(n, id, Handler(h.code, Goes(m, h, timeshift)), timeshift)
  {
    MoverDelay(m, id, h, timeshift);
    MoverPlace(m, id, h, timeshift);
    MoverLocks(m, id, h, timeshift);
    if Restarts(h.code) { MoverStops(m, h, StoppedBy(h.code), timeshift); }
  }

  lemma OtherKept(m: Memory, id: nat, h: Handler, other: nat, timeshift: bool)
    requires CanMove(m, h.pc) && HandlerOk(m, id, h, timeshift) && other != id
    ensures Kept(m, Writes(m, id, h.pc), other)
  {
  }

  lemma StepKeepsHandlers(s: State, step: Step, timeshift: bool)
    requires Enabled(s, step) && Inv(s, timeshift)
    ensures var t := Next(s, step, timeshift); IsDelay(t.memory.startDelay) && HandlersOk(t, timeshift)
  {
    var t := Next(s, step, timeshift);
    forall id | id in t.handlers
      ensures HandlerOk(t.memory, id, t.handlers[id], timeshift)
    {
      match step
      case Begin(_, _) =>
      case Do(i) =>
        if i == id { MoverOk(s.memory, id, s.handlers[id], timeshift); }
        else {
          OtherKept(s.memory, i, s.handlers[i], id, timeshift);
          StillOk(s.memory, t.memory, id, s.handlers[id], timeshift);
        }
      case _ => StillOk(s.memory, t.memory, id, s.handlers[id], timeshift);
    }
    if step.Do? { MoverOk(s.memory, step.id, s.handlers[step.id], timeshift); }
  }

  lemma StepKeepsLate(s: State, step: Step, timeshift: bool)
    requires Enabled(s, step) && Inv(s, timeshift)
    ensures LateOk(Next(s, step, timeshift))
  {
    if step.Do? {
      var h := s.handlers[step.id];
      assert HandlerOk(s.memory, step.id, h, timeshift);
      assert !InLock(h.pc) ==> !Marking(Goes(s.memory, h, timeshift));
    }
  }

  lemma PairKept(m: Memory, c: Handler, e: Handler, ic: nat, ie: nat, timeshift: bool)
    requires HandlerOk(m, ic, c, timeshift) && HandlerOk(m, ie, e, timeshift) && Watched(c, e)
    ensures Watched(c, Handler(e.code, Goes(m, e, timeshift)))
    ensures Watched(Handler(c.code, Goes(m, c, timeshift)), e)
  {
  }

  lemma StepKeepsEachOther(s: State, step: Step, timeshift: bool)
    requires Enabled(s, step) && Inv(s, timeshift)
    ensures EachOther(Next(s, step, timeshift))
  {
    var t := Next(s, step, timeshift);
    forall c, e | c in t.handlers && e in t.handlers
      ensures Watched(t.handlers[c], t.handlers[e])
    {
      if step.Do? && (c == step.id || e == step.id) {
        PairKept(s.memory, s.handlers[c], s.handlers[e], c, e, timeshift);
      }
    }
  }

  lemma {:induction false} RunKeepsInv(steps: seq<Step>, timeshift: bool)
    requires Run(steps, timeshift).Some?
    ensures Inv(Run(steps, timeshift).value, timeshift)
  {
    if steps != [] {
      RunKeepsInv(steps[..|steps| - 1], timeshift);
      var s, step := Run(steps[..|steps| - 1], timeshift).value, steps[|steps| - 1];
      StepKeepsHandlers(s, step, timeshift);
      StepKeepsLate(s, step, timeshift);
      StepKeepsEachOther(s, step, timeshift);
    }
  }

  /** In every interleaving of any return codes the start delay is one of 0, 1, 3 to 13 and 60, and at most one restart
      is made once the recording is to finish. */
  lemma RestartControl(steps: seq<Step>, timeshift: bool)
    requires Run(steps, timeshift).Some?
    ensures var s := Run(steps, timeshift).value; IsDelay(s.memory.startDelay) && s.late <= 1
  {
    RunKeepsInv(steps, timeshift);
  }

  /** However their flag writes and reads interleave, of a "playlist end" and a "comment done" handler that have both
      ended at least one has stopped the playlist and comment goroutines; without timeshift the former always has. */
  lemma SomeoneStops(steps: seq<Step>, timeshift: bool, e: nat, c: nat)
    requires Run(steps, timeshift).Some?
    requires var s := Run(steps, timeshift).value;
      && e in s.handlers && s.handlers[e].code == PlaylistEnd && s.handlers[e].pc.Over?
      && c in s.handlers && s.handlers[c].code == CommentDone && s.handlers[c].pc.Over?
    ensures var s := Run(steps, timeshift).value;
      && (s.handlers[e].pc == Over(PC) || s.handlers[c].pc == Over(PC))
      && (!timeshift ==> s.handlers[e].pc == Over(PC))
  {
    RunKeepsInv(steps, timeshift);
  }

  /** Whoever may have asked for a restart has also stopped the playlist goroutines by the time it ends, without which the
      restart would wait for them forever; network errors stop the comment goroutines too. */
  lemma RestartersStop(steps: seq<Step>, timeshift: bool, id: nat)
    requires Run(steps, timeshift).Some?
    requires var s := Run(steps, timeshift).value;
      id in s.handlers && Restarts(s.handlers[id].code) && s.handlers[id].pc.Over?
    ensures var h := Run(steps, timeshift).value.handlers[id]; h.pc == Over(StoppedBy(h.code))
  {
    RunKeepsInv(steps, timeshift);
    assert HandlerOk(Run(steps, timeshift).value.memory, id, Run(steps, timeshift).value.handlers[id], timeshift);
  }
}
