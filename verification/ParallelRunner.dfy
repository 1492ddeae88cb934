/** Calls of ParallelCtx that share one semaphore, as a transition system over all interleavings. The
    functions do not call ParallelCtx themselves. */
module ParallelRunner {
  import opened Listing

  /** The life of a goroutine: spawned and waiting for the semaphore, running its function, about to
      record an error or a recovered panic, about to call wg.Done, past it, and past the release. */
  datatype Phase = Idle | Waiting | Running | Failing | Ending | Finished | Released

  /** A function of a call; failed is set when it has returned an error or panicked. */
  datatype Job = Job(call: nat, phase: Phase, failed: bool)

  /** The wait group's counter, the jobs whose errors were collected, and whether the call has returned
      and then panicked with the errors. */
  datatype Call = Call(wg: int, errs: seq<nat>, returned: bool, panicked: bool)

  /** ran lists the functions in the order in which they were started. */
  datatype State = State(capacity: nat, occupancy: int, jobs: seq<Job>, calls: seq<Call>, ran: seq<nat>)

  datatype Step =
    | Spawn(job: nat)
    | Acquire(job: nat)
    | Finish(job: nat, fails: bool)
    | Record(job: nat)
    | Done(job: nat)
    | Release(job: nat)
    | Return(call: nat)

  // ---------- Steps ----------

  predicate IsJob(s: State, j: nat, phase: Phase) {
    j < |s.jobs| && s.jobs[j].call < |s.calls| && s.jobs[j].phase == phase
  }

  /** wg.Add(1) and go, in order; a full channel blocks Acquire, an empty one Release; Wait needs a
      zero counter after the spawning loop. */
  predicate Enabled(s: State, step: Step) {
    match step
    case Spawn(j) => IsJob(s, j, Idle)
        && forall k | 0 <= k < j && s.jobs[k].call == s.jobs[j].call :: s.jobs[k].phase != Idle
    case Acquire(j) => IsJob(s, j, Waiting) && s.occupancy < s.capacity
    case Finish(j, _) => IsJob(s, j, Running)
    case Record(j) => IsJob(s, j, Failing)
    case Done(j) => IsJob(s, j, Ending)
    case Release(j) => IsJob(s, j, Finished) && s.occupancy > 0
    case Return(c) =>
      c < |s.calls| && !s.calls[c].returned && s.calls[c].wg == 0
      && forall k | 0 <= k < |s.jobs| && s.jobs[k].call == c :: s.jobs[k].phase != Idle
  }

  function Move(s: State, j: nat, phase: Phase): State
    requires j < |s.jobs|
  {
    s.(jobs := s.jobs[j := s.jobs[j].(phase := phase)])
  }

  function AddWg(s: State, j: nat, n: int): State
    requires j < |s.jobs| && s.jobs[j].call < |s.calls|
  {
    var c := s.jobs[j].call;
    s.(calls := s.calls[c := s.calls[c].(wg := s.calls[c].wg + n)])
  }

  function Apply(s: State, step: Step): State
    requires Enabled(s, step)
  {
    match step
    case Spawn(j) => AddWg(Move(s, j, Waiting), j, 1)
    case Acquire(j) => Move(s, j, Running).(occupancy := s.occupancy + 1, ran := s.ran + [j])
    case Finish(j, fails) => s.(jobs := s.jobs[j := Job(s.jobs[j].call, if fails then Failing else Ending, fails)])
    case Record(j) =>
      var c := s.jobs[j].call;
      Move(s, j, Ending).(calls := s.calls[c := s.calls[c].(errs := s.calls[c].errs + [j])])
    case Done(j) => AddWg(Move(s, j, Finished), j, -1)
    case Release(j) => Move(s, j, Released).(occupancy := s.occupancy - 1)
    case Return(c) => s.(calls := s.calls[c := s.calls[c].(returned := true, panicked := s.calls[c].errs != [])])
  }

  /** Nothing spawned: the function j belongs to call owners[j]. */
  ghost predicate Init(s: State) {
    && s.occupancy == 0 && s.ran == []
    && (forall j | 0 <= j < |s.jobs| :: s.jobs[j].call < |s.calls| && s.jobs[j].phase == Idle && !s.jobs[j].failed)
    && (forall c | 0 <= c < |s.calls| :: s.calls[c] == Call(0, [], false, false))
  }

  // ---------- Counting jobs ----------

  function Count(jobs: seq<Job>, p: Job -> bool): nat {
    if jobs == [] then 0 else (if p(jobs[0]) then 1 else 0) + Count(jobs[1..], p)
  }

  lemma {:induction false} CountUpdate(jobs: seq<Job>, j: nat, x: Job, p: Job -> bool)
    requires j < |jobs|
    ensures Count(jobs[j := x], p) == Count(jobs, p) - (if p(jobs[j]) then 1 else 0) + (if p(x) then 1 else 0)
  {
    if j == 0 {
      assert jobs[j := x][1..] == jobs[1..];
    } else {
      CountUpdate(jobs[1..], j - 1, x, p);
      assert jobs[j := x][1..] == jobs[1..][j - 1 := x];
    }
  }

  lemma {:induction false} CountNone(jobs: seq<Job>, p: Job -> bool)
    ensures Count(jobs, p) == 0 <==> forall j | 0 <= j < |jobs| :: !p(jobs[j])
  {
    if jobs != [] {
      CountNone(jobs[1..], p);
      assert forall j | 1 <= j < |jobs| :: jobs[j] == jobs[1..][j - 1];
      assert forall j | 0 <= j < |jobs[1..]| :: jobs[1..][j] == jobs[j + 1];
    }
  }

  lemma {:induction false} CountLess(jobs: seq<Job>, p: Job -> bool, q: Job -> bool)
    requires forall x :: p(x) ==> q(x)
    ensures Count(jobs, p) <= Count(jobs, q)
  {
    if jobs != [] { CountLess(jobs[1..], p, q); }
  }

  /** Between the acquire and the release. */
  predicate Holds(x: Job) { x.phase.Running? || x.phase.Failing? || x.phase.Ending? || x.phase.Finished? }

  predicate Runs(x: Job) { x.phase.Running? }

  /** Spawned and not past wg.Done. */
  predicate Pending(x: Job) { x.phase.Waiting? || x.phase.Running? || x.phase.Failing? || x.phase.Ending? }

  function PendingIn(c: nat): Job -> bool { (x: Job) => x.call == c && Pending(x) }

  predicate Started(x: Job) { !x.phase.Idle? && !x.phase.Waiting? }

  predicate Collected(x: Job) { x.failed && !x.phase.Failing? }

  // ---------- The invariant ----------

  ghost predicate Owned(s: State) { forall j | 0 <= j < |s.jobs| :: s.jobs[j].call < |s.calls| }

  /** The channel holds one element for each goroutine between acquire and release. */
  ghost predicate Occupied(s: State) { s.occupancy == Count(s.jobs, Holds) <= s.capacity }

  ghost predicate Grouped(s: State) {
    forall c | 0 <= c < |s.calls| :: s.calls[c].wg == Count(s.jobs, PendingIn(c))
  }

  /** Every function is started at most once, and those started are past the semaphore. */
  ghost predicate RanOnce(s: State) {
    NoRepeats(s.ran) && forall j: nat :: j in s.ran <==> j < |s.jobs| && Started(s.jobs[j])
  }

  /** Every failure contributes one error to its call. */
  ghost predicate Errors(s: State) {
    && (forall j | 0 <= j < |s.jobs| ::
        (s.jobs[j].failed ==> Started(s.jobs[j]) && !Runs(s.jobs[j]))
            && (s.jobs[j].phase.Failing? ==> s.jobs[j].failed))
    && forall c | 0 <= c < |s.calls| :: CallErrors(s.jobs, c, s.calls[c].errs)
  }

  ghost predicate CallErrors(jobs: seq<Job>, c: nat, errs: seq<nat>) {
    NoRepeats(errs) && forall j: nat :: j in errs <==> j < |jobs| && jobs[j].call == c && Collected(jobs[j])
  }

  /** Waiting ends only after all functions of the call have finished. */
  ghost predicate Joined(s: State) {
    forall j | 0 <= j < |s.jobs| && s.jobs[j].call < |s.calls| && s.calls[s.jobs[j].call].returned ::
      s.jobs[j].phase.Finished? || s.jobs[j].phase.Released?
  }

  /** A call panics exactly when it has collected errors. */
  ghost predicate Reported(s: State) {
    forall c | 0 <= c < |s.calls| && s.calls[c].returned :: s.calls[c].panicked <==> s.calls[c].errs != []
  }

  ghost predicate Inv(s: State) {
    Owned(s) && Occupied(s) && Grouped(s) && RanOnce(s) && Errors(s) && Joined(s) && Reported(s)
  }

  lemma InitInv(s: State)
    requires Init(s)
    ensures Inv(s)
  {
    CountNone(s.jobs, Holds);
    forall c | 0 <= c < |s.calls|
      ensures s.calls[c].wg == Count(s.jobs, PendingIn(c))
    {
      CountNone(s.jobs, PendingIn(c));
    }
  }

  /** Every step but Return changes one job. */
  lemma OneJob(s: State, step: Step) returns (j: nat, x: Job)
    requires Enabled(s, step) && !step.Return?
    ensures j < |s.jobs| == |Apply(s, step).jobs| && Apply(s, step).jobs == s.jobs[j := x]
            && x == Apply(s, step).jobs[j] && x.call == s.jobs[j].call && j == step.job
    ensures Apply(s, step).capacity == s.capacity && |Apply(s, step).calls| == |s.calls|
  {
    j := step.job;
    x := Apply(s, step).jobs[j];
  }

  lemma StepOccupied(s: State, step: Step)
    requires Inv(s) && Enabled(s, step)
    ensures Occupied(Apply(s, step)) && Owned(Apply(s, step))
  {
    hide Grouped, RanOnce, Errors, Joined, Reported;
    if !step.Return? {
      var j, x := OneJob(s, step);
      CountUpdate(s.jobs, j, x, Holds);
    }
  }

  lemma StepGrouped(s: State, step: Step)
    requires Inv(s) && Enabled(s, step)
    ensures Grouped(Apply(s, step))
  {
    hide Occupied, RanOnce, Errors, Joined, Reported;
    var t := Apply(s, step);
    forall c | 0 <= c < |t.calls| ensures t.calls[c].wg == Count(t.jobs, PendingIn(c)) {
      if !step.Return? {
        var j, x := OneJob(s, step);
        CountUpdate(s.jobs, j, x, PendingIn(c));
      }
    }
  }

  lemma StepRanOnce(s: State, step: Step)
    requires Inv(s) && Enabled(s, step)
    ensures RanOnce(Apply(s, step))
  {
    hide Occupied, Grouped, Errors, Joined, Reported;
  }

  lemma StepErrors(s: State, step: Step)
    requires Inv(s) && Enabled(s, step)
    ensures Errors(Apply(s, step))
  {
    hide Occupied, Grouped, RanOnce, Joined, Reported, CallErrors;
    var t := Apply(s, step);
    forall c | 0 <= c < |t.calls| ensures CallErrors(t.jobs, c, t.calls[c].errs) {
      CallErrorsStep(s, step, c);
    }
  }

  lemma CallErrorsStep(s: State, step: Step, c: nat)
    requires Errors(s) && Enabled(s, step) && c < |s.calls|
    ensures CallErrors(Apply(s, step).jobs, c, Apply(s, step).calls[c].errs)
  {
    assert CallErrors(s.jobs, c, s.calls[c].errs);
  }

  lemma StepJoined(s: State, step: Step)
    requires Inv(s) && Enabled(s, step)
    ensures Joined(Apply(s, step)) && Reported(Apply(s, step))
  {
    hide Occupied, RanOnce, Errors;
    if step.Return? {
      CountNone(s.jobs, PendingIn(step.call));
      assert s.calls[step.call].wg == Count(s.jobs, PendingIn(step.call));
      forall j | 0 <= j < |s.jobs| && s.jobs[j].call == step.call
          ensures s.jobs[j].phase.Finished? || s.jobs[j].phase.Released? {
        assert !PendingIn(step.call)(s.jobs[j]);
      }
    }
  }

  /** Every step keeps the invariant. */
  lemma StepInv(s: State, step: Step)
    requires Inv(s) && Enabled(s, step)
    ensures Inv(Apply(s, step))
  {
    StepOccupied(s, step);
    StepGrouped(s, step);
    StepRanOnce(s, step);
    StepErrors(s, step);
    StepJoined(s, step);
    hide *;
  }

  // ---------- Runs ----------

  /** The steps can be taken from s, one after another, and end in t. */
  ghost predicate Run(s: State, steps: seq<Step>, t: State)
    decreases |steps|
  {
    if steps == [] then s == t
    else Enabled(s, steps[0]) && Run(Apply(s, steps[0]), steps[1..], t)
  }

  lemma {:induction false} RunInv(s: State, steps: seq<Step>, t: State)
    requires Inv(s) && Run(s, steps, t)
    ensures Inv(t)
    decreases |steps|
  {
    hide Inv, Enabled, Apply;
    if steps != [] {
      StepInv(s, steps[0]);
      RunInv(Apply(s, steps[0]), steps[1..], t);
    }
  }

  /** In every interleaving: no more functions run at once than the semaphore admits. */
  lemma AtMostCapacityRun(s: State, steps: seq<Step>, t: State)
    requires Init(s) && Run(s, steps, t)
    ensures Count(t.jobs, Runs) <= t.occupancy == Count(t.jobs, Holds) <= t.capacity
  {
    hide Init, Run;
    InitInv(s);
    RunInv(s, steps, t);
    CountLess(t.jobs, Runs, Holds);
  }

  /** In every interleaving: when a call returns, each of its functions has run, exactly once, and its
      errors are exactly its failures. */
  lemma ReturnedCallIsComplete(s: State, steps: seq<Step>, t: State, c: nat)
    requires Init(s) && Run(s, steps, t) && c < |t.calls| && t.calls[c].returned
    ensures NoRepeats(t.ran) && NoRepeats(t.calls[c].errs)
    ensures forall j: nat | j < |t.jobs| && t.jobs[j].call == c ::
            j in t.ran && (t.jobs[j].phase.Finished? || t.jobs[j].phase.Released?)
    ensures forall j: nat :: j in t.calls[c].errs <==> j < |t.jobs| && t.jobs[j].call == c && t.jobs[j].failed
    ensures t.calls[c].panicked <==> exists j | 0 <= j < |t.jobs| :: t.jobs[j].call == c && t.jobs[j].failed
  {
    hide Init, Run;
    InitInv(s);
    RunInv(s, steps, t);
    assert CallErrors(t.jobs, c, t.calls[c].errs);
    if t.calls[c].errs != [] { assert t.calls[c].errs[0] in t.calls[c].errs; }
  }

  // ---------- Progress ----------

  predicate Complete(s: State) {
    (forall j | 0 <= j < |s.jobs| :: s.jobs[j].phase.Released?) && forall c | 0 <= c < |s.calls| :: s.calls[c].returned
  }

  /** Some step is enabled until every goroutine has released its slot and every call has returned. */
  lemma Progress(s: State) returns (step: Step)
    requires Inv(s) && s.capacity > 0 && !Complete(s)
    ensures Enabled(s, step)
  {
    hide RanOnce, Errors, Joined, Reported;
    CountNone(s.jobs, Holds);
    if j :| 0 <= j < |s.jobs| && Holds(s.jobs[j]) {
      step := HolderStep(s, j);
    } else if j :| 0 <= j < |s.jobs| && s.jobs[j].phase.Waiting? {
      step := Acquire(j);
    } else if j :| 0 <= j < |s.jobs| && s.jobs[j].phase.Idle? {
      var k := FirstIdle(s, s.jobs[j].call, j);
      step := Spawn(k);
    } else {
      var c :| 0 <= c < |s.calls| && !s.calls[c].returned;
      CountNone(s.jobs, PendingIn(c));
      step := Return(c);
    }
  }

  lemma HolderStep(s: State, j: nat) returns (step: Step)
    requires Owned(s) && Occupied(s) && j < |s.jobs| && Holds(s.jobs[j])
    ensures Enabled(s, step)
  {
    CountNone(s.jobs, Holds);
    match s.jobs[j].phase
    case Running => step := Finish(j, false);
    case Failing => step := Record(j);
    case Ending => step := Done(j);
    case Finished => step := Release(j);
  }

  lemma {:induction false} FirstIdle(s: State, c: nat, j: nat) returns (k: nat)
    requires j < |s.jobs| && s.jobs[j].call == c && s.jobs[j].phase.Idle?
    ensures k <= j && s.jobs[k].call == c && s.jobs[k].phase.Idle?
    ensures forall i | 0 <= i < k && s.jobs[i].call == c :: !s.jobs[i].phase.Idle?
    decreases j
  {
    if i :| 0 <= i < j && s.jobs[i].call == c && s.jobs[i].phase.Idle? {
      k := FirstIdle(s, c, i);
    } else {
      k := j;
    }
  }

  /** The steps still to be taken, at most. */
  function Left(x: Job): nat {
    match x.phase
    case Idle => 6
    case Waiting => 5
    case Running => 4
    case Failing => 3
    case Ending => 2
    case Finished => 1
    case Released => 0
  }

  function JobsLeft(jobs: seq<Job>): nat {
    if jobs == [] then 0 else Left(jobs[0]) + JobsLeft(jobs[1..])
  }

  function CallsLeft(calls: seq<Call>): nat {
    if calls == [] then 0 else (if calls[0].returned then 0 else 1) + CallsLeft(calls[1..])
  }

  lemma {:induction false} JobsLeftUpdate(jobs: seq<Job>, j: nat, x: Job)
    requires j < |jobs|
    ensures JobsLeft(jobs[j := x]) == JobsLeft(jobs) - Left(jobs[j]) + Left(x)
  {
    if j == 0 {
      assert jobs[j := x][1..] == jobs[1..];
    } else {
      JobsLeftUpdate(jobs[1..], j - 1, x);
      assert jobs[j := x][1..] == jobs[1..][j - 1 := x];
    }
  }

  lemma {:induction false} CallsLeftUpdate(calls: seq<Call>, c: nat, x: Call)
    requires c < |calls|
    ensures CallsLeft(calls[c := x])
            == CallsLeft(calls) - (if calls[c].returned then 0 else 1) + (if x.returned then 0 else 1)
  {
    if c == 0 {
      assert calls[c := x][1..] == calls[1..];
    } else {
      CallsLeftUpdate(calls[1..], c - 1, x);
      assert calls[c := x][1..] == calls[1..][c - 1 := x];
    }
  }

  function StepsLeft(s: State): nat { JobsLeft(s.jobs) + CallsLeft(s.calls) }

  /** Every step brings the end nearer, so runs are bounded. */
  lemma StepsDecrease(s: State, step: Step)
    requires Enabled(s, step)
    ensures StepsLeft(Apply(s, step)) < StepsLeft(s)
  {
    hide JobsLeft, CallsLeft;
    if step.Return? {
      CallsLeftUpdate(s.calls, step.call, Apply(s, step).calls[step.call]);
    } else {
      var j, x := OneJob(s, step);
      JobsLeftUpdate(s.jobs, j, x);
      var c := s.jobs[j].call;
      CallsLeftUpdate(s.calls, c, Apply(s, step).calls[c]);
      assert Apply(s, step).calls == s.calls[c := Apply(s, step).calls[c]];
    }
  }

  lemma {:induction false} RunsAreBounded(s: State, steps: seq<Step>, t: State)
    requires Run(s, steps, t)
    ensures |steps| + StepsLeft(t) <= StepsLeft(s)
    decreases |steps|
  {
    hide StepsLeft, Enabled, Apply;
    if steps != [] {
      StepsDecrease(s, steps[0]);
      RunsAreBounded(Apply(s, steps[0]), steps[1..], t);
    }
  }

  /** From every reachable state all goroutines can release and all calls return: there is no deadlock. */
  lemma {:induction false} CanComplete(s: State) returns (steps: seq<Step>, t: State)
    requires Inv(s) && s.capacity > 0
    ensures Run(s, steps, t) && Complete(t)
    decreases StepsLeft(s)
  {
    hide Inv, Enabled, Apply, Complete, StepsLeft;
    if Complete(s) {
      steps, t := [], s;
    } else {
      var step := Progress(s);
      StepInv(s, step);
      StepsDecrease(s, step);
      SameCapacity(s, step);
      var rest;
      rest, t := CanComplete(Apply(s, step));
      steps := [step] + rest;
      assert steps[1..] == rest;
    }
  }

  lemma SameCapacity(s: State, step: Step)
    requires Enabled(s, step)
    ensures Apply(s, step).capacity == s.capacity
  {}
}
