/** The range downloader: one goroutine per range asks the server for it and writes it to the shared file piece by piece,
    while the main loop starts the next one as soon as it knows the length of the last. */
module RangeDownload {
  import opened Options
  import opened Bytes

  /** The remote resource, the sizes in use, and how many goroutines may run at once. */
  datatype Job = Job(remote: Data, rangeSize: nat, buffSize: nat, concurrent: nat)

  predicate Proper(job: Job) {
    job.rangeSize > 0 && job.buffSize > 0 && job.concurrent > 0
  }

  function Min(a: int, b: int): int {
    if a < b then a else b
  }

  /** How much of the range at `pos` there is. A server that honours ranges refuses one that starts at the end. */
  function Length(job: Job, pos: nat): nat {
    if pos < |job.remote| then Min(job.rangeSize, |job.remote| - pos) else 0
  }

  /** A positioned write; a hole before it reads as zeros. */
  function WriteAt(file: Data, pos: nat, data: Data): (r: Data)
    ensures |r| == (if |file| < pos + |data| then pos + |data| else |file|)
    ensures forall b :: 0 <= b < |r| ==> r[b] == ByteAt(file, pos, data, b)
  {
    seq(if |file| < pos + |data| then pos + |data| else |file|, b requires 0 <= b => ByteAt(file, pos, data, b))
  }

  function ByteAt(file: Data, pos: nat, data: Data, b: nat): byte {
    if pos <= b < pos + |data| then data[b - pos] else if b < |file| then file[b] else 0
  }

  // ---------- The goroutines ----------

  datatype Phase = Asking | Reading(written: nat) | Over | Gone

  datatype Worker = Worker(pos: nat, phase: Phase)

  datatype Main = Starting(pos: nat) | Awaiting(pos: nat) | Draining | Finished

  datatype Header = NoHeader | Sent(length: nat)

  datatype State = State(file: Data, workers: seq<Worker>, main: Main, header: Header, refused: bool)

  /** `Unanswered` is a request that gets no response; its goroutine ends without sending a length. */
  datatype Step = Start | Answer(i: nat) | Unanswered(i: nat) | Piece(i: nat) | Receive | Join

  predicate Ended(w: Worker) {
    w.phase.Over? || w.phase.Gone?
  }

  function Running(workers: seq<Worker>): nat {
    if workers == [] then 0
    else Running(workers[..|workers| - 1]) + (if Ended(workers[|workers| - 1]) then 0 else 1)
  }

  predicate Enabled(s: State, step: Step, job: Job) {
    !s.refused
    && match step
       case Start => s.main.Starting? && Running(s.workers) < job.concurrent
       case Answer(i) => i < |s.workers| && s.workers[i].phase.Asking?
       case Unanswered(i) => i < |s.workers| && s.workers[i].phase.Asking?
       case Piece(i) => i < |s.workers| && s.workers[i].phase.Reading?
       case Receive => s.main.Awaiting? && s.header.Sent?
       case Join => s.main.Draining? && forall i :: 0 <= i < |s.workers| ==> Ended(s.workers[i])
  }

  function PieceLength(w: Worker, job: Job): nat
    requires w.phase.Reading?
  {
    var left := Length(job, w.pos) - w.phase.written;
    if left <= 0 then 0 else Min(job.buffSize, left)
  }

  function PieceData(w: Worker, job: Job): (r: Data)
    requires w.phase.Reading?
    ensures |r| == PieceLength(w, job)
  {
    var from := w.pos + w.phase.written;
    if PieceLength(w, job) == 0 then [] else job.remote[from..from + PieceLength(w, job)]
  }

  function Moved(s: State, i: nat, phase: Phase): State
    requires i < |s.workers|
  {
    s.(workers := s.workers[i := s.workers[i].(phase := phase)])
  }

  function Next(s: State, step: Step, job: Job): State
    requires Enabled(s, step, job)
  {
    match step
    case Start => s.(workers := s.workers + [Worker(s.main.pos, Asking)], main := Awaiting(s.main.pos))
    case Answer(i) =>
      if s.workers[i].pos < |job.remote| then Moved(s, i, Reading(0)).(header := Sent(Length(job, s.workers[i].pos)))
      else s.(refused := true)
    case Unanswered(i) => Moved(s, i, Gone)
    case Piece(i) =>
      var w := s.workers[i];
      if PieceLength(w, job) == 0 then Moved(s, i, Over)
      else Moved(s, i, Reading(w.phase.written + PieceLength(w, job))).(
             file := WriteAt(s.file, w.pos + w.phase.written, PieceData(w, job)))
    case Receive =>
      s.(main := if s.header.length == job.rangeSize then Starting(s.main.pos + s.header.length) else Draining, header := NoHeader)
    case Join => s.(main := Finished)
  }

  function Run(steps: seq<Step>, job: Job): Option<State>
    decreases |steps|
  {
    if steps == [] then Some(State([], [], Starting(0), NoHeader, false))
    else
      var before := Run(steps[..|steps| - 1], job);
      var step := steps[|steps| - 1];
      if before.Some? && Enabled(before.value, step, job) then Some(Next(before.value, step, job)) else None
  }

  // ---------- Invariants ----------

  function Written(w: Worker, job: Job): nat {
    match w.phase
    case Reading(n) => n
    case Over => Length(job, w.pos)
    case _ => 0
  }

  predicate ByteOk(file: Data, remote: Data, b: int) {
    0 <= b < |file| && b < |remote| && file[b] == remote[b]
  }

  /** What a worker has written is in the file, and is what the server has there. */
  predicate InFile(file: Data, w: Worker, job: Job) {
    && Written(w, job) <= Length(job, w.pos)
    && (w.phase.Reading? ==> w.pos < |job.remote|)
    && forall b :: w.pos <= b < w.pos + Written(w, job) ==> ByteOk(file, job.remote, b)
  }

  predicate FileOk(s: State, job: Job) {
    |s.file| <= |job.remote| && forall i :: 0 <= i < |s.workers| ==> InFile(s.file, s.workers[i], job)
  }

  predicate Touched(workers: seq<Worker>, b: int, job: Job) {
    exists i :: 0 <= i < |workers| && workers[i].pos <= b < workers[i].pos + Length(job, workers[i].pos)
  }

  /** Up to where the ranges asked for reach. */
  function Reach(s: State, job: Job): nat {
    match s.main
    case Starting(p) => p
    case Awaiting(p) => p + Length(job, p)
    case _ => |job.remote|
  }

  ghost predicate CoverOk(s: State, job: Job) {
    forall b :: 0 <= b < Reach(s, job) ==> Touched(s.workers, b, job)
  }

  predicate Answered(w: Worker) {
    w.phase.Reading? || w.phase.Over?
  }

  predicate AllAnswered(workers: seq<Worker>, n: nat)
    requires n <= |workers|
  {
    forall i :: 0 <= i < n ==> Answered(workers[i])
  }

  predicate Aligned(p: nat, job: Job)
    requires job.rangeSize > 0
  {
    p <= |job.remote| && p % job.rangeSize == 0
  }

  /** Only the newest goroutine can still be without an answer, and the main loop moves by whole ranges. */
  predicate MainOk(s: State, job: Job)
    requires job.rangeSize > 0
  {
    match s.main
    case Starting(p) => Aligned(p, job) && s.header.NoHeader? && AllAnswered(s.workers, |s.workers|)
    case Awaiting(p) =>
      && Aligned(p, job) && s.workers != [] && s.workers[|s.workers| - 1].pos == p && AllAnswered(s.workers, |s.workers| - 1)
      && (s.header.NoHeader? ==> !Answered(s.workers[|s.workers| - 1]))
      && (s.header.Sent? ==> s.header.length == Length(job, p) && p < |job.remote| && AllAnswered(s.workers, |s.workers|))
    case Draining => |job.remote| % job.rangeSize != 0 && AllAnswered(s.workers, |s.workers|)
    case Finished => |job.remote| % job.rangeSize != 0 && forall i :: 0 <= i < |s.workers| ==> s.workers[i].phase.Over?
  }

  ghost predicate Inv(s: State, job: Job)
    requires job.rangeSize > 0
  {
    FileOk(s, job) && CoverOk(s, job) && MainOk(s, job) && (s.refused ==> |job.remote| % job.rangeSize == 0)
  }

  lemma NextAligned(p: nat, job: Job)
    requires job.rangeSize > 0 && Aligned(p, job) && p < |job.remote|
    ensures Length(job, p) == job.rangeSize ==> Aligned(p + job.rangeSize, job)
    ensures Length(job, p) != job.rangeSize ==> |job.remote| % job.rangeSize != 0
  {
    var r := job.rangeSize;
    var q, d := p / r, |job.remote| - p;
    assert p == r * q;
    if Length(job, p) == r {
      Quotient(p + r, r, q + 1, 0);
    } else {
      Quotient(p + d, r, q, d);
    }
  }

  lemma PieceOk(file: Data, w: Worker, other: Worker, job: Job)
    requires w.phase.Reading? && InFile(file, w, job) && |file| <= |job.remote| && PieceLength(w, job) > 0
    requires InFile(file, other, job)
    ensures var f := WriteAt(file, w.pos + w.phase.written, PieceData(w, job));
      && |f| <= |job.remote| && InFile(f, other, job)
      && InFile(f, w.(phase := Reading(w.phase.written + PieceLength(w, job))), job)
  {
    var from, f := w.pos + w.phase.written, WriteAt(file, w.pos + w.phase.written, PieceData(w, job));
    assert from + PieceLength(w, job) <= |job.remote|;
    forall b | 0 <= b ensures from <= b < from + PieceLength(w, job) || ByteOk(file, job.remote, b) ==> ByteOk(f, job.remote, b) { }
  }

  lemma {:induction false} StepKeepsFile(s: State, step: Step, job: Job)
    requires Proper(job) && Enabled(s, step, job) && Inv(s, job)
    ensures FileOk(Next(s, step, job), job)
  {
    var t := Next(s, step, job);
    if step.Piece? {
      var w := s.workers[step.i];
      if PieceLength(w, job) > 0 {
        forall i | 0 <= i < |t.workers| ensures InFile(t.file, t.workers[i], job) {
          PieceOk(s.file, w, s.workers[i], job);
        }
        PieceOk(s.file, w, w, job);
      }
    }
  }

  lemma StepKeepsCover(s: State, step: Step, job: Job)
    requires Proper(job) && Enabled(s, step, job) && Inv(s, job)
    ensures CoverOk(Next(s, step, job), job)
  {
    var t := Next(s, step, job);
    forall b | 0 <= b < Reach(t, job) ensures Touched(t.workers, b, job) {
      if b < Reach(s, job) {
        assert Touched(s.workers, b, job);
        var i :| 0 <= i < |s.workers| && s.workers[i].pos <= b < s.workers[i].pos + Length(job, s.workers[i].pos);
        assert t.workers[i].pos == s.workers[i].pos;
      } else {
        assert step.Start?;
        assert t.workers[|s.workers|].pos == s.main.pos;
      }
    }
  }

  lemma StepKeepsMain(s: State, step: Step, job: Job)
    requires Proper(job) && Enabled(s, step, job) && Inv(s, job)
    ensures MainOk(Next(s, step, job), job)
    ensures Next(s, step, job).refused ==> |job.remote| % job.rangeSize == 0
  {
    match step
    case Receive => NextAligned(s.main.pos, job);
    case _ =>
  }

  lemma {:induction false} RunKeepsInv(steps: seq<Step>, job: Job)
    requires Proper(job) && Run(steps, job).Some?
    ensures Inv(Run(steps, job).value, job)
    decreases |steps|
  {
    if steps != [] {
      RunKeepsInv(steps[..|steps| - 1], job);
      var s, step := Run(steps[..|steps| - 1], job).value, steps[|steps| - 1];
      StepKeepsFile(s, step, job);
      StepKeepsCover(s, step, job);
      StepKeepsMain(s, step, job);
    }
  }

  lemma WholeFile(s: State, job: Job)
    requires Proper(job) && Inv(s, job) && s.main.Finished?
    ensures s.file == job.remote
  {
    forall b | 0 <= b < |job.remote| ensures ByteOk(s.file, job.remote, b) {
      assert Touched(s.workers, b, job);
      var i :| 0 <= i < |s.workers| && s.workers[i].pos <= b < s.workers[i].pos + Length(job, s.workers[i].pos);
      assert InFile(s.file, s.workers[i], job);
    }
    SameBytes(s.file, job.remote);
  }

  lemma SameBytes(file: Data, remote: Data)
    requires |file| <= |remote| && forall b :: 0 <= b < |remote| ==> ByteOk(file, remote, b)
    ensures file == remote
  {
    if remote != [] { assert ByteOk(file, remote, |remote| - 1); }
    forall b | 0 <= b < |file| ensures file[b] == remote[b] {
      assert ByteOk(file, remote, b);
    }
  }

  /** In every interleaving, a download that finishes has written the remote resource byte for byte, and it finishes only
      if the size is not a multiple of the range size; it is refused only if the size is one. */
  lemma FinishedIsRemote(steps: seq<Step>, job: Job)
    requires Proper(job) && Run(steps, job).Some?
    ensures var s := Run(steps, job).value;
      && (s.main.Finished? ==> s.file == job.remote && |job.remote| % job.rangeSize != 0)
      && (s.refused ==> |job.remote| % job.rangeSize == 0)
  {
    RunKeepsInv(steps, job);
    var s := Run(steps, job).value;
    if s.main.Finished? { WholeFile(s, job); }
  }

  // ---------- Every download comes to an end ----------

  function Cost(w: Worker, job: Job): nat {
    match w.phase
    case Asking => Length(job, w.pos) + 2
    case Reading(n) => if n <= Length(job, w.pos) then Length(job, w.pos) - n + 1 else 1
    case _ => 0
  }

  function Costs(workers: seq<Worker>, job: Job): nat {
    if workers == [] then 0 else Costs(workers[..|workers| - 1], job) + Cost(workers[|workers| - 1], job)
  }

  function Ahead(m: Main, job: Job): int {
    match m
    case Starting(p) => 8 * (|job.remote| - p) + 8
    case Awaiting(p) => 8 * (|job.remote| - p) + 5 - Length(job, p)
    case Draining => 1
    case Finished => 0
  }

  /** How many steps can still be made. */
  function Left(s: State, job: Job): int {
    Ahead(s.main, job) + Costs(s.workers, job) + (if s.refused then 0 else 1)
  }

  lemma {:induction false} CostsMoved(workers: seq<Worker>, i: nat, w: Worker, job: Job)
    requires i < |workers|
    ensures Costs(workers[i := w], job) == Costs(workers, job) - Cost(workers[i], job) + Cost(w, job)
    decreases |workers|
  {
    var n := |workers| - 1;
    if i < n {
      CostsMoved(workers[..n], i, w, job);
      assert workers[i := w][..n] == workers[..n][i := w];
    } else {
      assert workers[i := w][..n] == workers[..n];
    }
  }

  lemma PieceCosts(s: State, i: nat, job: Job)
    requires Proper(job) && Enabled(s, Piece(i), job) && InFile(s.file, s.workers[i], job)
    ensures Costs(Next(s, Piece(i), job).workers, job) < Costs(s.workers, job)
  {
    var w := s.workers[i];
    var v := w.(phase := if PieceLength(w, job) == 0 then Over else Reading(w.phase.written + PieceLength(w, job)));
    CostsMoved(s.workers, i, v, job);
    assert Cost(v, job) < Cost(w, job);
  }

  lemma MainCosts(s: State, step: Step, job: Job)
    requires Proper(job) && Enabled(s, step, job) && MainOk(s, job) && (step.Start? || step.Receive? || step.Join?)
    ensures Left(Next(s, step, job), job) < Left(s, job)
  {
    if step.Start? {
      assert (s.workers + [Worker(s.main.pos, Asking)])[..|s.workers|] == s.workers;
    }
  }

  lemma StepCosts(s: State, step: Step, job: Job)
    requires Proper(job) && Enabled(s, step, job) && Inv(s, job)
    ensures Left(Next(s, step, job), job) < Left(s, job)
  {
    match step
    case Answer(i) => CostsMoved(s.workers, i, s.workers[i].(phase := Reading(0)), job);
    case Unanswered(i) => CostsMoved(s.workers, i, s.workers[i].(phase := Gone), job);
    case Piece(i) => PieceCosts(s, i, job);
    case _ => MainCosts(s, step, job);
  }

  lemma {:induction false} StepsLeft(steps: seq<Step>, job: Job)
    requires Proper(job) && Run(steps, job).Some?
    ensures |steps| + Left(Run(steps, job).value, job) <= 8 * |job.remote| + 9
    decreases |steps|
  {
    if steps != [] {
      var before := steps[..|steps| - 1];
      StepsLeft(before, job);
      RunKeepsInv(before, job);
      StepCosts(Run(before, job).value, steps[|steps| - 1], job);
    }
  }

  /** No interleaving goes on forever. */
  lemma RunsEnd(steps: seq<Step>, job: Job)
    requires Proper(job) && Run(steps, job).Some?
    ensures |steps| <= 8 * |job.remote| + 9
  {
    StepsLeft(steps, job);
    RunKeepsInv(steps, job);
    assert Ahead(Run(steps, job).value.main, job) >= 0;
  }

  predicate NoneGone(s: State) {
    forall i :: 0 <= i < |s.workers| ==> !s.workers[i].phase.Gone?
  }

  lemma {:induction false} SomeRunning(workers: seq<Worker>) returns (i: nat)
    requires Running(workers) > 0
    ensures i < |workers| && !Ended(workers[i])
    decreases |workers|
  {
    i := |workers| - 1;
    if Ended(workers[i]) { i := SomeRunning(workers[..i]); }
  }

  /** And none is stuck: while every request is answered, a download that is neither finished nor refused can go on. */
  lemma NeverStuck(steps: seq<Step>, job: Job) returns (step: Step)
    requires Proper(job) && Run(steps, job).Some? && NoneGone(Run(steps, job).value)
    ensures var s := Run(steps, job).value; s.main.Finished? || s.refused || Enabled(s, step, job)
  {
    RunKeepsInv(steps, job);
    var s := Run(steps, job).value;
    step := Start;
    match s.main
    case Starting(_) =>
      if Running(s.workers) >= job.concurrent {
        var i := SomeRunning(s.workers);
        step := Piece(i);
      }
    case Awaiting(_) =>
      step := if s.header.Sent? then Receive else Answer(|s.workers| - 1);
    case Draining =>
      step := Join;
      if i :| 0 <= i < |s.workers| && !Ended(s.workers[i]) { step := Piece(i); }
    case Finished =>
  }

  ghost predicate AtEnd(s: State, job: Job) {
    forall step: Step :: !Enabled(s, step, job)
  }

  /** A request without an answer leaves the main loop waiting for its length, for good. */
  lemma UnansweredWaits(steps: seq<Step>, job: Job)
    requires Proper(job) && Run(steps, job).Some? && !NoneGone(Run(steps, job).value)
    ensures var s := Run(steps, job).value; s.main.Awaiting? && s.header.NoHeader? && !s.refused
  {
    RunKeepsInv(steps, job);
    RunKeepsGone(steps, job);
  }

  /** Only the newest request can be the one without an answer, and nothing is refused after it. */
  predicate GoneOk(s: State) {
    !NoneGone(s) ==> !s.refused && s.header.NoHeader?
  }

  lemma {:induction false} RunKeepsGone(steps: seq<Step>, job: Job)
    requires Proper(job) && Run(steps, job).Some?
    ensures GoneOk(Run(steps, job).value)
    decreases |steps|
  {
    if steps != [] {
      RunKeepsGone(steps[..|steps| - 1], job);
      RunKeepsInv(steps[..|steps| - 1], job);
      StepKeepsGone(Run(steps[..|steps| - 1], job).value, steps[|steps| - 1], job);
    }
  }

  lemma StepKeepsGone(s: State, step: Step, job: Job)
    requires Proper(job) && Enabled(s, step, job) && MainOk(s, job) && GoneOk(s)
    ensures GoneOk(Next(s, step, job))
  {
    var t := Next(s, step, job);
    if i :| 0 <= i < |t.workers| && t.workers[i].phase.Gone? {
      if i < |s.workers| && s.workers[i].phase.Gone? {
        assert !NoneGone(s);
        assert i == |s.workers| - 1;
      }
    }
  }

  /** So a run that has come to its end has the whole file exactly if every request was answered and the size is not a
      multiple of the range size; if it is, the download was refused or is waiting. */
  lemma EndsWhole(steps: seq<Step>, job: Job)
    requires Proper(job) && Run(steps, job).Some? && AtEnd(Run(steps, job).value, job)
    ensures var s := Run(steps, job).value;
      && (s.main.Finished? <==> NoneGone(s) && |job.remote| % job.rangeSize != 0)
      && (s.main.Finished? ==> s.file == job.remote)
      && (s.refused <==> NoneGone(s) && |job.remote| % job.rangeSize == 0)
  {
    if NoneGone(Run(steps, job).value) {
      var _ := NeverStuck(steps, job);
    } else {
      UnansweredWaits(steps, job);
    }
    FinishedIsRemote(steps, job);
  }

  // ---------- One goroutine, and a download that runs one at a time ----------

  lemma WriteTwice(file: Data, pos: nat, a: Data, b: Data)
    ensures WriteAt(WriteAt(file, pos, a), pos + |a|, b) == WriteAt(file, pos, a + b)
  {
    var two, one := WriteAt(WriteAt(file, pos, a), pos + |a|, b), WriteAt(file, pos, a + b);
    assert |two| == |one|;
  }

  /** The file once the first `n` bytes of a body are written. */
  function Copied(file: Data, pos: nat, body: Data, n: nat): Data
    requires n <= |body|
  {
    if n == 0 then file else WriteAt(file, pos, body[..n])
  }

  lemma NextPiece(file: Data, pos: nat, body: Data, w: nat, n: nat)
    requires n > 0 && w + n <= |body|
    ensures WriteAt(Copied(file, pos, body, w), pos + w, body[w..w + n]) == Copied(file, pos, body, w + n)
  {
    var a, b := body[..w], body[w..w + n];
    TakeMore(body, w, n);
    if w > 0 { WriteTwice(file, pos, a, b); }
  }

  lemma TakeMore(body: Data, w: nat, n: nat)
    requires w + n <= |body|
    ensures |body[..w]| == w && body[..w] + body[w..w + n] == body[..w + n]
    ensures w == 0 ==> body[w..w + n] == body[..w + n]
  {
  }

  class Target {
    var file: Data

    constructor ()
      ensures file == []
    {
      file := [];
    }

    method Write(pos: nat, data: Data)
      modifies this
      ensures file == WriteAt(old(file), pos, data)
    {
      if |file| < pos {
        file := file + seq(pos - |file|, _ => 0);
      }
      file := file[..pos] + data + (if pos + |data| <= |file| then file[pos + |data|..] else []);
    }

    /** The copy loop of one goroutine: its pieces together are one write of the body. */
    method Copy(pos: nat, body: Data, buffSize: nat)
      requires buffSize > 0 && body != []
      modifies this
      ensures file == WriteAt(old(file), pos, body)
    {
      var wbytes := 0;
      while true
        invariant wbytes <= |body|
        invariant file == Copied(old(file), pos, body, wbytes)
        decreases |body| - wbytes
      {
        var n := Min(buffSize, |body| - wbytes);
        if n > 0 {
          NextPiece(old(file), pos, body, wbytes, n);
          Write(pos + wbytes, body[wbytes..wbytes + n]);
          wbytes := wbytes + n;
        } else {
          assert wbytes == |body| && body[..wbytes] == body;
          return;
        }
      }
    }
  }

  const DefaultRange := 10_000_000
  const DefaultBuffer := 3_000_000

  /** The main loop with one goroutine at a time. `fatal` is the stop at a refused request. */
  method Download(remote: Data, rangeSize: int, buffSize: int) returns (file: Data, fatal: bool)
    ensures var r := if rangeSize <= 0 then DefaultRange else rangeSize;
      if |remote| % r == 0 then fatal else !fatal && file == remote
  {
    var r, b := if rangeSize <= 0 then DefaultRange else rangeSize, if buffSize <= 0 then DefaultBuffer else buffSize;
    var job := Job(remote, r, b, 1);
    var target := new Target();
    var pos := 0;
    assert 0 % r == 0;
    while true
      invariant Aligned(pos, job) && target.file == remote[..pos]
      decreases |remote| - pos
    {
      if pos >= |remote| {
        return target.file, true;
      }
      var length := Length(job, pos);
      target.Copy(pos, remote[pos..pos + length], b);
      NextAligned(pos, job);
      if length == r {
        pos := pos + length;
      } else {
        assert target.file == remote;
        return target.file, false;
      }
    }
  }

  // ---------- What is asked for, and by how many at once ----------

  lemma {:induction false} RunningMoved(workers: seq<Worker>, i: nat, w: Worker)
    requires i < |workers|
    ensures Running(workers[i := w]) == Running(workers) - (if Ended(workers[i]) then 0 else 1) + (if Ended(w) then 0 else 1)
    decreases |workers|
  {
    var n := |workers| - 1;
    if i < n {
      RunningMoved(workers[..n], i, w);
      assert workers[i := w][..n] == workers[..n][i := w];
    } else {
      assert workers[i := w][..n] == workers[..n];
    }
  }

  /** Worker number `i` has the range number `i`, and the main loop is at the one behind the last. */
  predicate InRanges(s: State, job: Job) {
    && (forall i :: 0 <= i < |s.workers| ==> s.workers[i].pos == i * job.rangeSize)
    && (s.main.Starting? ==> s.main.pos == |s.workers| * job.rangeSize)
    && (s.main.Awaiting? ==> s.workers != [] && s.main.pos == (|s.workers| - 1) * job.rangeSize)
  }

  lemma StepKeepsCount(s: State, step: Step, job: Job)
    requires Proper(job) && Enabled(s, step, job) && Running(s.workers) <= job.concurrent
    ensures Running(Next(s, step, job).workers) <= job.concurrent
  {
    match step
    case Start => assert (s.workers + [Worker(s.main.pos, Asking)])[..|s.workers|] == s.workers;
    case Answer(i) => RunningMoved(s.workers, i, s.workers[i].(phase := Reading(0)));
    case Unanswered(i) => RunningMoved(s.workers, i, s.workers[i].(phase := Gone));
    case Piece(i) =>
      var w := s.workers[i];
      RunningMoved(s.workers, i, w.(phase := Over));
      RunningMoved(s.workers, i, w.(phase := Reading(w.phase.written + PieceLength(w, job))));
    case _ =>
  }

  lemma OneRangeMore(n: int, size: int)
    ensures (n - 1) * size + size == n * size
  {
  }

  lemma StepKeepsRanges(s: State, step: Step, job: Job)
    requires Proper(job) && Enabled(s, step, job) && InRanges(s, job) && MainOk(s, job)
    ensures InRanges(Next(s, step, job), job)
  {
    OneRangeMore(|s.workers|, job.rangeSize);
    var t := Next(s, step, job);
    forall i | 0 <= i < |t.workers| ensures t.workers[i].pos == i * job.rangeSize {
      if i < |s.workers| { assert t.workers[i].pos == s.workers[i].pos; }
    }
  }

  /** In every interleaving each range is asked for once, in order, never by more goroutines at once than are allowed. */
  lemma {:induction false} EachRangeOnce(steps: seq<Step>, job: Job)
    requires Proper(job) && Run(steps, job).Some?
    ensures InRanges(Run(steps, job).value, job) && Running(Run(steps, job).value.workers) <= job.concurrent
    decreases |steps|
  {
    if steps != [] {
      EachRangeOnce(steps[..|steps| - 1], job);
      RunKeepsInv(steps[..|steps| - 1], job);
      StepKeepsRanges(Run(steps[..|steps| - 1], job).value, steps[|steps| - 1], job);
      StepKeepsCount(Run(steps[..|steps| - 1], job).value, steps[|steps| - 1], job);
    }
  }

  /** No piece is larger than the buffer, and only the last one of a range is smaller. */
  lemma PieceSizes(w: Worker, job: Job)
    requires w.phase.Reading? && w.phase.written <= Length(job, w.pos)
    ensures |PieceData(w, job)| <= job.buffSize
    ensures |PieceData(w, job)| < job.buffSize ==> w.phase.written + |PieceData(w, job)| == Length(job, w.pos)
  {
  }
}
