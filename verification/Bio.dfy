/** bio.c: background jobs, as steps of the three workers, the main thread and any number of
    submitting threads.  Every locked region and every unlocked action is one step.

    Only the main thread drains and reads completions.  The lists `submitted`, `performed` and
    `finished` of a worker, and `called`, record the past; no step looks at them.
  */
module Bio {

  datatype Kind = CloseFile | AofFsync | CloseAof | LazyFree | CompCloseFile | CompAofFsync | CompLazyFree

  const WORKERS: nat := 3

  /** bio_job_to_worker. */
  function WorkerOf(k: Kind): (w: nat)
    ensures w < WORKERS
  {
    match k
    case CloseFile | CompCloseFile => 0
    case AofFsync | CloseAof | CompAofFsync => 1
    case LazyFree | CompLazyFree => 2
  }

  predicate IsComp(k: Kind) {
    k.CompCloseFile? || k.CompAofFsync? || k.CompLazyFree?
  }

  /** A job, or the completion response that a completion request turns into. */
  datatype Job = Job(kind: Kind, id: nat)

  /** Where a worker is: at the top of its loop, waiting on the condition, running a job, having
      put a completion response on the list but not yet written to the pipe, or done with the
      job but not yet back under the lock. */
  datatype Phase = Top | Asleep | Running(job: Job) | Appended(job: Job) | Done(job: Job)

  datatype Worker = Worker(jobs: seq<Job>, phase: Phase, submitted: seq<Job>, performed: seq<Job>, finished: seq<Job>)

  /** Where the main thread is: `Drain` waits for a worker, `target` being what was submitted
      to it before; `Reading` reads the pipe; `Emptied` has emptied it and not yet taken the list. */
  datatype Main = Idle | Drain(worker: nat, asleep: bool, target: seq<Job>) | Reading | Emptied
      | Calling(responses: seq<Job>)

  datatype State = State(workers: seq<Worker>, counter: map<Kind, int>, comp: seq<Job>, pipe: nat, main: Main,
                         called: seq<Job>)

  datatype Step =
    | Submit(job: Job, toWorker: bool)
    | Test(w: nat)
    | Spurious(w: nat)
    | Perform(w: nat)
    | WritePipe(w: nat, ok: bool)
    | Finish(w: nat, toWorker: bool)
    | DrainStart(w: nat)
    | DrainTest
    | DrainSpurious
    | ReadStart
    | ReadSome
    | Swap
    | Callback

  const READ_SIZE: nat := 128

  predicate WellTyped(s: State) {
    |s.workers| == WORKERS && (forall k: Kind :: k in s.counter) && (s.main.Drain? ==> s.main.worker < WORKERS)
  }

  /** When a step can be taken.  The pipe does not block; a write fails only when the pipe is
      full, so not when it is empty. */
  predicate Enabled(s: State, step: Step)
    requires WellTyped(s)
  {
    match step
    case Submit(job, toWorker) => true
    case Test(w) => w < WORKERS && s.workers[w].phase.Top?
    case Spurious(w) => w < WORKERS && s.workers[w].phase.Asleep?
    case Perform(w) => w < WORKERS && s.workers[w].phase.Running?
    case WritePipe(w, ok) => w < WORKERS && s.workers[w].phase.Appended? && (ok || s.pipe > 0)
    case Finish(w, toWorker) => w < WORKERS && s.workers[w].phase.Done? && s.workers[w].jobs != []
    case DrainStart(w) => w < WORKERS && s.main.Idle?
    case DrainTest => s.main.Drain? && !s.main.asleep
    case DrainSpurious => s.main.Drain? && s.main.asleep
    case ReadStart => s.main.Idle? && s.pipe > 0
    case ReadSome => s.main.Reading?
    case Swap => s.main.Emptied?
    case Callback => s.main.Calling?
  }

  predicate DrainerAsleep(s: State, w: nat) {
    s.main.Drain? && s.main.worker == w && s.main.asleep
  }

  /** pthread_cond_signal on worker w's condition: one waiter wakes, if there is one. */
  function Signal(s: State, w: nat, toWorker: bool): (t: State)
    requires w < |s.workers|
    ensures WellTyped(s) ==> WellTyped(t)
  {
    if s.workers[w].phase.Asleep? && (toWorker || !DrainerAsleep(s, w)) then
      s.(workers := s.workers[w := s.workers[w].(phase := Top)])
    else if DrainerAsleep(s, w) then s.(main := s.main.(asleep := false))
    else s
  }

  function Next(s: State, step: Step): (t: State)
    requires WellTyped(s) && Enabled(s, step)
    ensures WellTyped(t)
  {
    match step
    case Submit(job, toWorker) =>
      var w := WorkerOf(job.kind);
      var x := s.workers[w];
      Signal(s.(workers := s.workers[w := x.(jobs := x.jobs + [job], submitted := x.submitted + [job])],
                counter := s.counter[job.kind := s.counter[job.kind] + 1]), w, toWorker)
    case Test(w) =>
      var x := s.workers[w];
      s.(workers := s.workers[w := x.(phase := if x.jobs == [] then Asleep else Running(x.jobs[0]))])
    case Spurious(w) =>
      s.(workers := s.workers[w := s.workers[w].(phase := Top)])
    case Perform(w) =>
      var x := s.workers[w];
      var job := x.phase.job;
      if IsComp(job.kind) then
        s.(workers := s.workers[w := x.(phase := Appended(job), performed := x.performed + [job])],
          comp := s.comp + [job])
      else
        s.(workers := s.workers[w := x.(phase := Done(job), performed := x.performed + [job])])
    case WritePipe(w, ok) =>
      var x := s.workers[w];
      s.(workers := s.workers[w := x.(phase := Done(x.phase.job))], pipe := if ok then s.pipe + 1 else s.pipe)
    case Finish(w, toWorker) =>
      var x := s.workers[w];
      var job := x.phase.job;
      Signal(s.(workers := s.workers[w := x.(jobs := x.jobs[1..], phase := Top, finished := x.finished + [job])],
                counter := s.counter[job.kind := s.counter[job.kind] - 1]), w, toWorker)
    case DrainStart(w) => s.(main := Drain(w, false, s.workers[w].submitted))
    case DrainTest =>
      s.(main := if s.workers[s.main.worker].jobs == [] then Idle else s.main.(asleep := true))
    case DrainSpurious => s.(main := s.main.(asleep := false))
    case ReadStart => s.(main := Reading)
    case ReadSome =>
      if s.pipe >= READ_SIZE then s.(pipe := s.pipe - READ_SIZE) else s.(pipe := 0, main := Emptied)
    case Swap => s.(main := if s.comp == [] then Idle else Calling(s.comp), comp := [])
    case Callback =>
      var r := s.main.responses;
      if r == [] then s.(main := Idle) else s.(main := Calling(r[1..]), called := s.called + [r[0]])
  }

  // ----- the invariant -----

  function Count(jobs: seq<Job>, k: Kind): nat {
    if jobs == [] then 0 else (if jobs[0].kind == k then 1 else 0) + Count(jobs[1..], k)
  }

  /** The completion requests in a list of jobs. */
  function Comps(jobs: seq<Job>): seq<Job> {
    if jobs == [] then []
    else Comps(jobs[..|jobs| - 1]) + (if IsComp(jobs[|jobs| - 1].kind) then [jobs[|jobs| - 1]] else [])
  }

  /** The responses that come from worker w. */
  function From(responses: seq<Job>, w: nat): seq<Job> {
    if responses == [] then []
    else From(responses[..|responses| - 1], w)
         + (if WorkerOf(responses[|responses| - 1].kind) == w then [responses[|responses| - 1]] else [])
  }

  /** Responses in the order of their callbacks: run, taken, still on the list. */
  function Responses(s: State): seq<Job> {
    s.called + (if s.main.Calling? then s.main.responses else []) + s.comp
  }

  predicate HasJob(p: Phase) {
    p.Running? || p.Appended? || p.Done?
  }

  ghost predicate WorkerInv(x: Worker, w: nat) {
    && x.submitted == x.finished + x.jobs
    && (HasJob(x.phase) ==> x.jobs != [] && x.jobs[0] == x.phase.job)
    && x.performed == x.finished + (if x.phase.Appended? || x.phase.Done? then [x.phase.job] else [])
    && (forall i :: 0 <= i < |x.jobs| ==> WorkerOf(x.jobs[i].kind) == w)
    && (x.phase.Asleep? ==> x.jobs == [])
  }

  ghost predicate Counted(s: State)
    requires WellTyped(s)
  {
    forall k: Kind :: s.counter[k] == Count(s.workers[WorkerOf(k)].jobs, k)
  }

  /** Somebody will still look at the completion list. */
  predicate Announced(s: State) {
    || s.pipe > 0
    || (exists w :: 0 <= w < |s.workers| && s.workers[w].phase.Appended?)
    || s.main.Reading?
    || s.main.Emptied?
  }

  ghost predicate Ordered(s: State) {
    forall w :: 0 <= w < |s.workers| ==> From(Responses(s), w) == Comps(s.workers[w].performed)
  }

  ghost predicate WorkersOk(s: State) {
    forall w :: 0 <= w < |s.workers| ==> WorkerInv(s.workers[w], w)
  }

  /** A drainer that sleeps has a job to wait for. */
  predicate DrainOk(s: State)
    requires WellTyped(s)
  {
    s.main.Drain? ==> && s.main.target <= s.workers[s.main.worker].submitted
                      && (s.main.asleep ==> s.workers[s.main.worker].jobs != [])
  }

  predicate NotLost(s: State) {
    s.comp != [] ==> Announced(s)
  }

  ghost predicate Inv(s: State) {
    WellTyped(s) && WorkersOk(s) && Counted(s) && DrainOk(s) && NotLost(s) && Ordered(s)
  }
}
