/** What holds of the background jobs in every interleaving. */
module BioProofs {
  import opened Bio

  // ----- lists -----

  lemma {:induction false} CountAppend(jobs: seq<Job>, job: Job, k: Kind)
    ensures Count(jobs + [job], k) == Count(jobs, k) + if job.kind == k then 1 else 0
  {
    if jobs == [] {
      assert jobs + [job] == [job];
    } else {
      assert (jobs + [job])[1..] == jobs[1..] + [job];
      CountAppend(jobs[1..], job, k);
    }
  }

  lemma CompsAppend(jobs: seq<Job>, job: Job)
    ensures Comps(jobs + [job]) == Comps(jobs) + if IsComp(job.kind) then [job] else []
  {
    assert (jobs + [job])[..|jobs|] == jobs;
  }

  lemma FromAppend(jobs: seq<Job>, job: Job, w: nat)
    ensures From(jobs + [job], w) == From(jobs, w) + if WorkerOf(job.kind) == w then [job] else []
  {
    assert (jobs + [job])[..|jobs|] == jobs;
  }

  // ----- signals -----

  /** What a signal leaves alone, and whom it wakes. */
  lemma SignalFacts(s: State, w: nat, toWorker: bool)
    requires w < |s.workers|
    ensures var t := Signal(s, w, toWorker);
            && t == s.(workers := t.workers, main := t.main)
            && |t.workers| == |s.workers|
            && (forall v :: 0 <= v < |s.workers| && v != w ==> t.workers[v] == s.workers[v])
            && t.workers[w] == s.workers[w].(phase := t.workers[w].phase)
            && (t.workers[w].phase == s.workers[w].phase || (s.workers[w].phase.Asleep? && t.workers[w].phase.Top?))
            && (t.main == s.main || (DrainerAsleep(s, w) && t.main == s.main.(asleep := false)))
            && (s.workers[w].phase.Asleep? && !DrainerAsleep(s, w) ==> t.workers[w].phase.Top?)
            && (!s.workers[w].phase.Asleep? && DrainerAsleep(s, w) ==> !DrainerAsleep(t, w))
  {
  }

  // ----- parts of the invariant that a step does not touch -----

  lemma CountedFrame(s: State, t: State)
    requires WellTyped(s) && WellTyped(t) && Counted(s) && t.counter == s.counter
    requires forall w :: 0 <= w < WORKERS ==> t.workers[w].jobs == s.workers[w].jobs
    ensures Counted(t)
  {
    hide Count;
    forall k: Kind
      ensures t.counter[k] == Count(t.workers[WorkerOf(k)].jobs, k)
    {
      assert s.counter[k] == Count(s.workers[WorkerOf(k)].jobs, k);
    }
  }

  lemma OrderedFrame(s: State, t: State)
    requires Ordered(s) && |t.workers| == |s.workers| && Responses(t) == Responses(s)
    requires forall w :: 0 <= w < |s.workers| ==> t.workers[w].performed == s.workers[w].performed
    ensures Ordered(t)
  {
    hide From, Comps, Responses;
  }

  lemma WorkersFrame(s: State, t: State, w: nat)
    requires WorkersOk(s) && |t.workers| == |s.workers| && w < |s.workers| && WorkerInv(t.workers[w], w)
    requires forall v :: 0 <= v < |s.workers| && v != w ==> t.workers[v] == s.workers[v]
    ensures WorkersOk(t)
  {
    hide WorkerInv;
  }

  lemma NotLostFrame(s: State, t: State, w: nat)
    requires NotLost(s) && t.comp == s.comp && t.pipe >= s.pipe
             && (s.main.Reading? || s.main.Emptied? ==> t.main == s.main)
    requires w < |s.workers| == |t.workers| && (s.workers[w].phase.Appended? ==> t.workers[w].phase.Appended?)
    requires forall v :: 0 <= v < |s.workers| && v != w ==> t.workers[v] == s.workers[v]
    ensures NotLost(t)
  {
    if v :| 0 <= v < |s.workers| && s.workers[v].phase.Appended? {
      assert t.workers[v].phase.Appended?;
    }
  }

  // ----- one worker -----

  lemma WorkerQueues(x: Worker, w: nat, job: Job)
    requires WorkerInv(x, w) && WorkerOf(job.kind) == w
    ensures WorkerInv(x.(jobs := x.jobs + [job], submitted := x.submitted + [job],
                         phase := if x.phase.Asleep? then Top else x.phase), w)
  {
    assert x.finished + (x.jobs + [job]) == x.submitted + [job];
  }

  lemma WorkerDeletes(x: Worker, w: nat)
    requires WorkerInv(x, w) && x.phase.Done?
    ensures x.jobs != []
    ensures WorkerInv(x.(jobs := x.jobs[1..], phase := Top, finished := x.finished + [x.phase.job]), w)
  {
    assert x.finished + x.jobs == x.finished + [x.jobs[0]] + x.jobs[1..];
  }

  lemma WorkerPerforms(x: Worker, w: nat, phase: Phase)
    requires WorkerInv(x, w) && x.phase.Running? && (phase == Appended(x.phase.job) || phase == Done(x.phase.job))
    ensures WorkerInv(x.(phase := phase, performed := x.performed + [x.phase.job]), w)
    ensures WorkerOf(x.phase.job.kind) == w
  {
    assert x.jobs[0] == x.phase.job;
  }

  // ----- every step keeps the invariant -----

  lemma SubmitKeeps(s: State, job: Job, toWorker: bool)
    requires Inv(s)
    ensures Inv(Next(s, Submit(job, toWorker)))
  {
    hide Signal, WorkerInv, Counted, Announced, NotLost, Ordered, Responses;
    var w, t := WorkerOf(job.kind), Next(s, Submit(job, toWorker));
    var x := s.workers[w];
    var q := s.(workers := s.workers[w := x.(jobs := x.jobs + [job], submitted := x.submitted + [job])],
                counter := s.counter[job.kind := s.counter[job.kind] + 1]);
    SignalFacts(q, w, toWorker);
    AsleepIsEmpty(s, w);
    WorkerQueues(x, w, job);
    assert t.workers[w].phase == if x.phase.Asleep? then Top else x.phase;
    WorkersFrame(s, t, w);
    CountedAfterSubmit(s, t, job);
    NotLostFrame(s, t, w);
    SameResponses(s, t);
    OrderedFrame(s, t);
  }

  lemma AsleepIsEmpty(s: State, w: nat)
    requires WorkersOk(s) && WellTyped(s) && DrainOk(s) && w < WORKERS
    ensures s.workers[w].phase.Asleep? ==> s.workers[w].jobs == [] && !DrainerAsleep(s, w)
  {
    assert WorkerInv(s.workers[w], w);
  }

  lemma SameResponses(s: State, t: State)
    requires t.called == s.called && t.comp == s.comp
    requires t.main == s.main || (!s.main.Calling? && !t.main.Calling?)
    ensures Responses(t) == Responses(s)
  {
  }

  lemma CountedAfterSubmit(s: State, t: State, job: Job)
    requires WellTyped(s) && WellTyped(t) && Counted(s)
    requires var w := WorkerOf(job.kind);
             && t.workers[w].jobs == s.workers[w].jobs + [job]
             && (forall v :: 0 <= v < WORKERS && v != w ==> t.workers[v].jobs == s.workers[v].jobs)
             && t.counter == s.counter[job.kind := s.counter[job.kind] + 1]
    ensures Counted(t)
  {
    hide Count;
    forall k: Kind
      ensures t.counter[k] == Count(t.workers[WorkerOf(k)].jobs, k)
    {
      assert s.counter[k] == Count(s.workers[WorkerOf(k)].jobs, k);
      CountAppend(s.workers[WorkerOf(job.kind)].jobs, job, k);
    }
  }

  lemma CountedAfterFinish(s: State, t: State, job: Job)
    requires WellTyped(s) && WellTyped(t) && Counted(s)
    requires var w := WorkerOf(job.kind);
             && s.workers[w].jobs == [job] + t.workers[w].jobs
             && (forall v :: 0 <= v < WORKERS && v != w ==> t.workers[v].jobs == s.workers[v].jobs)
             && t.counter == s.counter[job.kind := s.counter[job.kind] - 1]
    ensures Counted(t)
  {
    forall k: Kind
      ensures t.counter[k] == Count(t.workers[WorkerOf(k)].jobs, k)
    {
      assert s.counter[k] == Count(s.workers[WorkerOf(k)].jobs, k);
      var w := WorkerOf(job.kind);
      assert s.workers[w].jobs[1..] == t.workers[w].jobs;
    }
  }

  lemma FinishKeeps(s: State, w: nat, toWorker: bool)
    requires Inv(s) && Enabled(s, Finish(w, toWorker))
    ensures Inv(Next(s, Finish(w, toWorker)))
  {
    hide Signal, WorkerInv, Counted, Announced, NotLost, Ordered, Responses;
    var x, t := s.workers[w], Next(s, Finish(w, toWorker));
    var job := x.phase.job;
    var q := s.(workers := s.workers[w := x.(jobs := x.jobs[1..], phase := Top, finished := x.finished + [job])],
                counter := s.counter[job.kind := s.counter[job.kind] - 1]);
    SignalFacts(q, w, toWorker);
    WorkerDeletes(x, w);
    WorkersFrame(s, t, w);
    DoneIsHead(x, w);
    CountedAfterFinish(s, t, job);
    NotLostFrame(s, t, w);
    SameResponses(s, t);
    OrderedFrame(s, t);
  }

  lemma DoneIsHead(x: Worker, w: nat)
    requires WorkerInv(x, w) && HasJob(x.phase)
    ensures x.jobs != [] && x.jobs == [x.phase.job] + x.jobs[1..] && WorkerOf(x.phase.job.kind) == w
  {
    assert WorkerOf(x.jobs[0].kind) == w;
  }

  lemma PerformKeeps(s: State, w: nat)
    requires Inv(s) && Enabled(s, Perform(w))
    ensures Inv(Next(s, Perform(w)))
  {
    hide WorkerInv, Counted, Ordered, NotLost, Responses;
    var x, t := s.workers[w], Next(s, Perform(w));
    WorkerPerforms(x, w, t.workers[w].phase);
    WorkersFrame(s, t, w);
    CountedFrame(s, t);
    OrderedAfterPerform(s, t, w, x.phase.job);
    if IsComp(x.phase.job.kind) {
      AnnouncedByWorker(t, w);
    } else {
      NotLostFrame(s, t, w);
    }
  }

  lemma AnnouncedByWorker(t: State, w: nat)
    requires w < |t.workers| && t.workers[w].phase.Appended?
    ensures NotLost(t)
  {
  }

  lemma OrderedAfterPerform(s: State, t: State, w: nat, job: Job)
    requires Ordered(s) && w < |s.workers| == |t.workers| && WorkerOf(job.kind) == w && t.main == s.main
             && t.called == s.called
    requires t.comp == s.comp + if IsComp(job.kind) then [job] else []
    requires t.workers[w].performed == s.workers[w].performed + [job]
    requires forall v :: 0 <= v < |s.workers| && v != w ==> t.workers[v] == s.workers[v]
    ensures Ordered(t)
  {
    hide From, Comps;
    CompsAppend(s.workers[w].performed, job);
    forall v | 0 <= v < |t.workers|
      ensures From(Responses(t), v) == Comps(t.workers[v].performed)
    {
      if IsComp(job.kind) {
        assert Responses(t) == Responses(s) + [job];
        FromAppend(Responses(s), job, v);
      } else {
        assert Responses(t) == Responses(s);
      }
    }
  }

  /** The steps of a worker that leave its list of jobs alone. */
  lemma WorkerKeeps(s: State, step: Step)
    requires Inv(s) && (step.Test? || step.Spurious? || step.WritePipe?) && Enabled(s, step)
    ensures Inv(Next(s, step))
  {
    hide Counted, Ordered, Responses, Announced;
    var w, t := step.w, Next(s, step);
    assert WorkerInv(t.workers[w], w);
    WorkersFrame(s, t, w);
    CountedFrame(s, t);
    SameResponses(s, t);
    OrderedFrame(s, t);
    if step.WritePipe? {
      PipeAnnounces(t);
    } else {
      NotLostFrame(s, t, w);
    }
  }

  lemma PipeAnnounces(t: State)
    requires t.pipe > 0
    ensures Announced(t)
  {
  }

  lemma DrainKeeps(s: State, step: Step)
    requires Inv(s) && Enabled(s, step) && (step.DrainStart? || step.DrainTest? || step.DrainSpurious?)
    ensures Inv(Next(s, step))
  {
    hide WorkerInv, Counted, Ordered, NotLost, Responses;
    var t := Next(s, step);
    CountedFrame(s, t);
    SameResponses(s, t);
    OrderedFrame(s, t);
    NotLostFrame(s, t, 0);
  }

  lemma ReaderKeeps(s: State, step: Step)
    requires Inv(s) && Enabled(s, step) && (step.ReadStart? || step.ReadSome? || step.Swap? || step.Callback?)
    ensures Inv(Next(s, step))
  {
    hide WorkerInv, Counted, Ordered, Responses;
    var t := Next(s, step);
    CountedFrame(s, t);
    ReaderResponses(s, step);
    OrderedFrame(s, t);
    if step.Callback? {
      NotLostFrame(s, t, 0);
    }
  }

  lemma ReaderResponses(s: State, step: Step)
    requires WellTyped(s) && Enabled(s, step) && (step.ReadStart? || step.ReadSome? || step.Swap? || step.Callback?)
    ensures Responses(Next(s, step)) == Responses(s)
  {
  }

  lemma StepKeeps(s: State, step: Step)
    requires Inv(s) && Enabled(s, step)
    ensures Inv(Next(s, step))
  {
    hide WorkersOk, Counted, DrainOk, NotLost, Ordered, Next;
    match step {
      case Submit(job, toWorker) => SubmitKeeps(s, job, toWorker);
      case Finish(w, toWorker) => FinishKeeps(s, w, toWorker);
      case Perform(w) => PerformKeeps(s, w);
      case Test(_) | Spurious(_) | WritePipe(_, _) => WorkerKeeps(s, step);
      case DrainStart(_) | DrainTest | DrainSpurious => DrainKeeps(s, step);
      case ReadStart | ReadSome | Swap | Callback => ReaderKeeps(s, step);
    }
  }

  // ----- every run -----

  const NEW := Worker([], Top, [], [], [])

  const START := State([NEW, NEW, NEW], map k: Kind :: 0, [], 0, Idle, [])

  predicate Run(s: State, steps: seq<Step>)
    requires WellTyped(s)
    decreases |steps|
  {
    steps == [] || (Enabled(s, steps[0]) && Run(Next(s, steps[0]), steps[1..]))
  }

  function After(s: State, steps: seq<Step>): (t: State)
    requires WellTyped(s) && Run(s, steps)
    ensures WellTyped(t)
    decreases |steps|
  {
    if steps == [] then s else After(Next(s, steps[0]), steps[1..])
  }

  ghost predicate Reachable(s: State) {
    exists steps :: Run(START, steps) && After(START, steps) == s
  }

  lemma {:induction false} RunKeeps(s: State, steps: seq<Step>)
    requires Inv(s) && Run(s, steps)
    ensures Inv(After(s, steps))
    decreases |steps|
  {
    hide WorkersOk, Counted, DrainOk, NotLost, Ordered, Next;
    if steps != [] {
      StepKeeps(s, steps[0]);
      RunKeeps(Next(s, steps[0]), steps[1..]);
    }
  }

  lemma StartInv()
    ensures Inv(START)
  {
  }

  lemma ReachableInv(s: State)
    requires Reachable(s)
    ensures Inv(s)
  {
    hide WorkersOk, Counted, DrainOk, NotLost, Ordered;
    var steps :| Run(START, steps) && After(START, steps) == s;
    StartInv();
    RunKeeps(START, steps);
  }

  /** Each worker performs its jobs once, in the order of submission, and is at most one ahead of
      what it has taken off its list; each counter is the number of jobs of its type that are
      queued or running. */
  lemma JobsOnceInOrder(s: State, w: nat, k: Kind)
    requires Reachable(s) && w < |s.workers|
    ensures var x := s.workers[w];
            && x.finished <= x.performed <= x.submitted
            && |x.performed| <= |x.finished| + 1
            && x.submitted == x.finished + x.jobs
    ensures k in s.counter && WorkerOf(k) < |s.workers| && s.counter[k] == Count(s.workers[WorkerOf(k)].jobs, k)
  {
    hide Count, Ordered, NotLost, Reachable;
    ReachableInv(s);
    var x := s.workers[w];
    assert WorkerInv(x, w);
    if HasJob(x.phase) {
      assert x.jobs == [x.phase.job] + x.jobs[1..];
    }
  }

  /** A drain returns only when everything submitted to the worker before it began, and since,
      has been performed and taken off the list. */
  lemma DrainWaits(s: State)
    requires Reachable(s) && s.main.Drain? && WellTyped(s) && Enabled(s, DrainTest) && Next(s, DrainTest).main.Idle?
    ensures var x := s.workers[s.main.worker];
            s.main.target <= x.submitted == x.performed == x.finished
  {
    ReachableInv(s);
    var x := s.workers[s.main.worker];
    assert WorkerInv(x, s.main.worker);
  }

  /** The main thread waits in a drain all along. */
  ghost predicate Draining(s: State, steps: seq<Step>)
    requires WellTyped(s) && Run(s, steps)
    decreases |steps|
  {
    s.main.Drain? && (steps == [] || Draining(Next(s, steps[0]), steps[1..]))
  }

  lemma DrainStays(s: State, step: Step)
    requires WellTyped(s) && Enabled(s, step) && s.main.Drain? && Next(s, step).main.Drain?
    ensures Next(s, step).main.worker == s.main.worker && Next(s, step).main.target == s.main.target
  {
  }

  lemma {:induction false} DrainGoesOn(s: State, steps: seq<Step>)
    requires WellTyped(s) && Run(s, steps) && Draining(s, steps)
    ensures var t := After(s, steps);
            t.main.Drain? && t.main.worker == s.main.worker && t.main.target == s.main.target
    decreases |steps|
  {
    hide Next, Enabled, WellTyped;
    if steps != [] {
      assert Next(s, steps[0]).main.Drain?;
      DrainStays(s, steps[0]);
      DrainGoesOn(Next(s, steps[0]), steps[1..]);
    }
  }

  lemma {:induction false} StillReachable(s: State, steps: seq<Step>, more: seq<Step>)
    requires WellTyped(s) && Run(s, steps) && Run(After(s, steps), more)
    ensures Run(s, steps + more) && After(s, steps + more) == After(After(s, steps), more)
    decreases |steps|
  {
    hide Next, Enabled, WellTyped;
    if steps == [] {
      assert steps + more == more;
    } else {
      StillReachable(Next(s, steps[0]), steps[1..], more);
      assert (steps + more)[1..] == steps[1..] + more;
    }
  }

  lemma ReachableAfter(s: State, steps: seq<Step>)
    requires Reachable(s) && WellTyped(s) && Run(s, steps)
    ensures Reachable(After(s, steps))
  {
    hide Next, Enabled, Run, After;
    var first :| Run(START, first) && After(START, first) == s;
    StillReachable(START, first, steps);
  }

  lemma OnlyTestEnds(s: State, step: Step)
    requires WellTyped(s) && Enabled(s, step) && s.main.Drain? && !Next(s, step).main.Drain?
    ensures step.DrainTest? && Next(s, step).main.Idle?
  {
  }

  /** bioDrainWorker, from the call to the return: whatever the other threads do meanwhile, it ends
      only with a look at the list, and then all that had been submitted to the worker it was
      called for has been performed and is done. */
  lemma DrainWaitsForItsWorker(s: State, w: nat, steps: seq<Step>, last: Step)
    requires Reachable(s) && WellTyped(s) && Enabled(s, DrainStart(w))
    requires var s1 := Next(s, DrainStart(w));
             && Run(s1, steps) && Draining(s1, steps)
             && Enabled(After(s1, steps), last) && !Next(After(s1, steps), last).main.Drain?
    ensures last.DrainTest? && Next(After(Next(s, DrainStart(w)), steps), last).main.Idle?
    ensures var x := After(Next(s, DrainStart(w)), steps).workers[w];
            s.workers[w].submitted <= x.performed && s.workers[w].submitted <= x.finished && x.jobs == []
  {
    hide Reachable, Run, After, Draining;
    var s1 := Next(s, DrainStart(w));
    var t := After(s1, steps);
    assert Run(s, [DrainStart(w)]) && After(s, [DrainStart(w)]) == s1 by {
      OneStep(s, DrainStart(w));
    }
    ReachableAfter(s, [DrainStart(w)]);
    ReachableAfter(s1, steps);
    DrainGoesOn(s1, steps);
    OnlyTestEnds(t, last);
    DrainWaits(t);
    JobsOnceInOrder(t, w, CloseFile);
  }

  lemma OneStep(s: State, step: Step)
    requires WellTyped(s) && Enabled(s, step)
    ensures Run(s, [step]) && After(s, [step]) == Next(s, step)
  {
    hide Next, Enabled, WellTyped;
    assert [step][1..] == [];
  }

  /** The callbacks run so far for a worker are the first of the completion requests it has
      performed, in order: each runs once. */
  lemma CallbacksOnceInOrder(s: State, w: nat)
    requires Reachable(s) && w < |s.workers|
    ensures From(s.called, w) <= Comps(s.workers[w].performed)
  {
    hide WorkersOk, Counted, DrainOk, NotLost, From, Comps, Reachable;
    ReachableInv(s);
    var pending := (if s.main.Calling? then s.main.responses else []) + s.comp;
    assert Responses(s) == s.called + pending;
    FromPrefix(s.called, pending, w);
  }

  lemma {:induction false} FromPrefix(a: seq<Job>, b: seq<Job>, w: nat)
    ensures From(a, w) <= From(a + b, w)
    decreases |b|
  {
    if b == [] {
      assert a + b == a;
    } else {
      var n := |b| - 1;
      FromPrefix(a, b[..n], w);
      assert a + b == a + b[..n] + [b[n]];
      FromAppend(a + b[..n], b[n], w);
    }
  }

  /** So a callback comes after every job that was queued before its request: all of them are
      performed when it runs. */
  lemma CallbackIsLate(s: State, w: nat, i: nat)
    requires Reachable(s) && w < |s.workers| && i < |From(s.called, w)|
    ensures exists n :: 0 <= n < |s.workers[w].performed| && s.workers[w].performed[n] == From(s.called, w)[i]
                        && Comps(s.workers[w].performed[..n]) == From(s.called, w)[..i]
  {
    hide From, Comps;
    CallbacksOnceInOrder(s, w);
    var n := CompsAt(s.workers[w].performed, i);
    assert From(s.called, w)[..i] == Comps(s.workers[w].performed)[..i];
  }

  lemma {:induction false} CompsAt(jobs: seq<Job>, i: nat) returns (n: nat)
    requires i < |Comps(jobs)|
    ensures n < |jobs| && jobs[n] == Comps(jobs)[i] && Comps(jobs[..n]) == Comps(jobs)[..i]
    decreases |jobs|
  {
    var rest := jobs[..|jobs| - 1];
    if i < |Comps(rest)| {
      n := CompsAt(rest, i);
      assert rest[..n] == jobs[..n];
    } else {
      n := |jobs| - 1;
    }
  }

  // ----- what was submitted -----

  /** The jobs that some steps submit to a worker. */
  function Submissions(steps: seq<Step>, w: nat): seq<Job> {
    if steps == [] then []
    else (if steps[0].Submit? && WorkerOf(steps[0].job.kind) == w then [steps[0].job] else [])
         + Submissions(steps[1..], w)
  }

  lemma StepSubmits(s: State, step: Step, w: nat)
    requires WellTyped(s) && Enabled(s, step) && w < WORKERS
    ensures Next(s, step).workers[w].submitted
            == s.workers[w].submitted + if step.Submit? && WorkerOf(step.job.kind) == w then [step.job] else []
  {
  }

  lemma Regrouped(a: seq<Job>, b: seq<Job>, c: seq<Job>)
    ensures (a + b) + c == a + (b + c)
  {
  }

  lemma {:induction false} RunSubmits(s: State, steps: seq<Step>, w: nat)
    requires WellTyped(s) && Run(s, steps) && w < WORKERS
    ensures After(s, steps).workers[w].submitted == s.workers[w].submitted + Submissions(steps, w)
    decreases |steps|
  {
    hide Next, Enabled, WorkerOf;
    if steps != [] {
      var one := if steps[0].Submit? && WorkerOf(steps[0].job.kind) == w then [steps[0].job] else [];
      StepSubmits(s, steps[0], w);
      RunSubmits(Next(s, steps[0]), steps[1..], w);
      Regrouped(s.workers[w].submitted, one, Submissions(steps[1..], w));
    }
  }

  /** In every run each worker has performed the first of the jobs that were submitted to it,
      in order, and the others are on its list. */
  lemma RunPerforms(steps: seq<Step>, w: nat)
    requires WellTyped(START) && Run(START, steps) && w < WORKERS
    ensures var x := After(START, steps).workers[w];
            && x.finished <= x.performed <= Submissions(steps, w) == x.finished + x.jobs
            && |x.performed| <= |x.finished| + 1
  {
    hide Run, After, Submissions, Reachable;
    assert Reachable(After(START, steps)) by {
      assert Run(START, steps) && After(START, steps) == After(START, steps);
      IsReachable(steps);
    }
    RunSubmits(START, steps, w);
    JobsOnceInOrder(After(START, steps), w, CloseFile);
  }

  lemma IsReachable(steps: seq<Step>)
    requires WellTyped(START) && Run(START, steps)
    ensures Reachable(After(START, steps))
  {
    hide Run, After;
  }

  /** Which jobs a completion request is about. */
  predicate CompletionOf(request: Kind, k: Kind) {
    || (request.CompCloseFile? && k.CloseFile?)
    || (request.CompAofFsync? && (k.AofFsync? || k.CloseAof?))
    || (request.CompLazyFree? && k.LazyFree?)
  }

  /** A completion request is queued behind the jobs that it is about, and jobs of other kinds have
      other workers. */
  lemma KindsOfWorker(k: Kind, j: Kind)
    ensures WorkerOf(k) == WorkerOf(j)
            <==> exists request: Kind :: && IsComp(request) && (k == request || CompletionOf(request, k))
                                         && (j == request || CompletionOf(request, j))
  {
    assert IsComp(CompCloseFile) && IsComp(CompAofFsync) && IsComp(CompLazyFree);
  }

  lemma {:induction false} CompsOfPrefix(a: seq<Job>, b: seq<Job>)
    requires a <= b
    ensures |Comps(a)| <= |Comps(b)|
    decreases |b|
  {
    if a != b {
      CompsOfPrefix(a, b[..|b| - 1]);
    }
  }

  /** When the callback of a completion request runs, every job of its kinds that was submitted
      before the request has been performed. */
  lemma CompletionAfterJobs(s: State, request: Job, toWorker: bool, steps: seq<Step>, k: Kind)
    requires Reachable(s) && WellTyped(s) && CompletionOf(request.kind, k)
    requires Run(Next(s, Submit(request, toWorker)), steps)
    requires |From(After(Next(s, Submit(request, toWorker)), steps).called, WorkerOf(request.kind))|
             > |Comps(s.workers[WorkerOf(request.kind)].submitted)|
    ensures var t := After(Next(s, Submit(request, toWorker)), steps);
            s.workers[WorkerOf(k)].submitted <= t.workers[WorkerOf(k)].performed
  {
    hide Reachable, Run, After, From, Comps, Next;
    var w := WorkerOf(request.kind);
    var s1 := Next(s, Submit(request, toWorker));
    var t := After(s1, steps);
    assert WorkerOf(k) == w;
    OneStep(s, Submit(request, toWorker));
    ReachableAfter(s, [Submit(request, toWorker)]);
    ReachableAfter(s1, steps);
    StepSubmits(s, Submit(request, toWorker), w);
    RunSubmits(s1, steps, w);
    CallbacksOnceInOrder(t, w);
    JobsOnceInOrder(t, w, k);
    var before, x := s.workers[w].submitted, t.workers[w];
    assert before <= x.submitted && x.performed <= x.submitted;
    if |x.performed| < |before| {
      assert x.performed <= before;
      CompsOfPrefix(x.performed, before);
    }
  }

  /** A response on the list will be looked at. */
  lemma CompletionsNotLost(s: State)
    requires Reachable(s) && s.comp != []
    ensures Announced(s)
  {
    ReachableInv(s);
  }

  // ----- no wake-up is lost -----

  /** The step a worker takes when it is let run. */
  function WorkerStep(x: Worker, w: nat): Step {
    match x.phase
    case Top | Asleep => Test(w)
    case Running(_) => Perform(w)
    case Appended(_) => WritePipe(w, true)
    case Done(_) => Finish(w, true)
  }

  function Remaining(x: Worker): nat {
    4 * |x.jobs| + match x.phase
                   case Top | Asleep => 3
                   case Running(_) => 2
                   case Appended(_) => 1
                   case Done(_) => 0
  }

  /** While there are jobs the worker is awake and comes closer to the end with every step. */
  lemma WorkerProgress(s: State, w: nat)
    requires Inv(s) && w < WORKERS && s.workers[w].jobs != []
    ensures var step := WorkerStep(s.workers[w], w);
            Enabled(s, step) && Remaining(Next(s, step).workers[w]) < Remaining(s.workers[w])
  {
    hide Counted, Ordered, NotLost, Signal;
    var x := s.workers[w];
    assert WorkerInv(x, w);
    if x.phase.Done? {
      var q := s.(workers := s.workers[w := x.(jobs := x.jobs[1..], phase := Top,
        finished := x.finished + [x.phase.job])],
                  counter := s.counter[x.phase.job.kind := s.counter[x.phase.job.kind] - 1]);
      SignalFacts(q, w, true);
    }
  }

  /** From every state reached, the worker by itself empties its list, and a drainer that
      waited for it is awake then and can return. */
  lemma {:induction false} Drained(s: State, w: nat) returns (steps: seq<Step>)
    requires Inv(s) && w < WORKERS
    ensures Run(s, steps)
    ensures var t := After(s, steps); Inv(t) && t.workers[w].jobs == [] && !DrainerAsleep(t, w)
    decreases Remaining(s.workers[w])
  {
    hide WorkersOk, Counted, Ordered, NotLost, Next, Enabled;
    if s.workers[w].jobs == [] {
      steps := [];
    } else {
      var step := WorkerStep(s.workers[w], w);
      WorkerProgress(s, w);
      StepKeeps(s, step);
      var rest := Drained(Next(s, step), w);
      steps := [step] + rest;
      assert steps[1..] == rest;
    }
  }

  // ----- no completion stays on the list -----

  lemma TwoRuns(s: State, step: Step, rest: seq<Step>)
    requires WellTyped(s) && Enabled(s, step) && Run(Next(s, step), rest)
    ensures Run(s, [step] + rest) && After(s, [step] + rest) == After(Next(s, step), rest)
  {
    hide Next, Enabled, WellTyped;
    assert ([step] + rest)[1..] == rest;
  }

  lemma {:induction false} PipeEmptied(s: State) returns (steps: seq<Step>)
    requires WellTyped(s) && s.main.Reading?
    ensures Run(s, steps) && After(s, steps) == s.(pipe := 0, main := Emptied)
    decreases s.pipe
  {
    hide Run, After;
    var t := Next(s, ReadSome);
    if s.pipe >= READ_SIZE {
      var rest := PipeEmptied(t);
      steps := [ReadSome] + rest;
      TwoRuns(s, ReadSome, rest);
    } else {
      steps := [ReadSome];
      OneStep(s, ReadSome);
    }
  }

  lemma {:induction false} AllCalled(s: State) returns (steps: seq<Step>)
    requires WellTyped(s) && s.main.Calling?
    ensures Run(s, steps) && After(s, steps) == s.(main := Idle, called := s.called + s.main.responses)
    decreases |s.main.responses|
  {
    hide Run, After;
    var r := s.main.responses;
    if r == [] {
      steps := [Callback];
      OneStep(s, Callback);
      assert s.called + r == s.called;
    } else {
      var rest := AllCalled(Next(s, Callback));
      steps := [Callback] + rest;
      TwoRuns(s, Callback, rest);
      assert s.called + [r[0]] + r[1..] == s.called + r;
    }
  }

  /** Once a byte is in the pipe, the main thread by itself runs the callbacks of all responses on
      the list, in their order. */
  lemma Delivered(s: State) returns (steps: seq<Step>)
    requires WellTyped(s) && s.main.Idle? && s.pipe > 0 && s.comp != []
    ensures Run(s, steps)
    ensures After(s, steps) == s.(pipe := 0, comp := [], called := s.called + s.comp)
  {
    hide Run, After;
    var s1 := Next(s, ReadStart);
    var read := PipeEmptied(s1);
    var s2 := After(s1, read);
    var s3 := Next(s2, Swap);
    var call := AllCalled(s3);
    TwoRuns(s2, Swap, call);
    StillReachable(s1, read, [Swap] + call);
    steps := [ReadStart] + (read + ([Swap] + call));
    TwoRuns(s, ReadStart, read + ([Swap] + call));
  }

  /** So every response is called back: in every state reached in which one is on the list and the
      main thread is idle, the byte is in the pipe or a worker is about to write it. */
  lemma CompletionsDelivered(s: State) returns (steps: seq<Step>)
    requires Reachable(s) && s.main.Idle? && s.comp != []
    ensures WellTyped(s) && Run(s, steps)
    ensures var t := After(s, steps); t.main.Idle? && t.comp == [] && t.called == s.called + s.comp
  {
    hide Run, After, Reachable, WorkersOk, Counted, DrainOk, Ordered;
    ReachableInv(s);
    if s.pipe > 0 {
      steps := Delivered(s);
    } else {
      var w :| 0 <= w < |s.workers| && s.workers[w].phase.Appended?;
      var rest := Delivered(Next(s, WritePipe(w, true)));
      steps := [WritePipe(w, true)] + rest;
      TwoRuns(s, WritePipe(w, true), rest);
    }
  }
}
