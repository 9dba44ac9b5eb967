/**
  After Close of the fixed worker pool: every run comes to rest with all workers gone, and exactly
  which jobs may be left behind.
 */
module WorkerPoolShutdown {
  import opened Options
  import opened Runs
  import opened Sums
  import opened Bags
  import Intake
  import IntakeProgress
  import opened WorkerPool

  /** Close has returned. */
  ghost predicate Closed(c: Config, s: State) {
    Inv(c, s) && s.intake.gate.once.Done?
  }

  function Rank(w: Worker): nat {
    match w case Select => 1 case Busy(_) => 2 case Gone => 0
  }

  function Potential(s: State): nat { 2 * |s.intake.jobs.queue| + Sum(Rank, s.workers) }

  lemma WorkDecreases(c: Config, s: State, j: nat, op: WorkerOp)
    requires j < |s.workers| && WorkStep(c, s, j, op).Some?
    ensures Potential(WorkStep(c, s, j, op).value) < Potential(s)
    ensures WorkStep(c, s, j, op).value.intake.gate == s.intake.gate
  {
    SumUpdate(Rank, s.workers, j, WorkStep(c, s, j, op).value.workers[j]);
  }

  lemma ClosedAdmission(c: Config, s: State, a: Action)
    requires Closed(c, s) && Step(c, s, a).Some? && !a.Work?
    ensures var t := Step(c, s, a).value;
      t.intake.gate.once.Done? && t.intake.jobs.queue == s.intake.jobs.queue && t.workers == s.workers
  {
    Intake.DoneFacts(s.intake);
    assert !a.Meet?;
    Intake.ClosedStep(c.Front(), s.intake, a.a);
    hide Inv, Intake.Step;
  }

  /** Every worker step uses up potential; callers and closers give none back. */
  lemma ClosedStep(c: Config, s: State, a: Action)
    requires Closed(c, s) && Step(c, s, a).Some?
    ensures var t := Step(c, s, a).value;
      Closed(c, t) && (if a.Work? then Potential(t) < Potential(s) else Potential(t) == Potential(s))
  {
    InvStep(c, s, a);
    if a.Work? {
      hide Inv, Potential, Intake.Step;
      WorkDecreases(c, s, a.j, a.op);
    } else {
      ClosedAdmission(c, s, a);
    }
  }

  function WorkSteps(run: seq<Action>): nat {
    if run == [] then 0 else (if run[0].Work? then 1 else 0) + WorkSteps(run[1..])
  }

  /** However callers and closers keep going, the workers take at most Potential(s) steps after Close has returned. */
  lemma {:induction false} CloseBoundsEveryRun(c: Config, s: State, run: seq<Action>, t: State)
    requires Closed(c, s) && Exec(Steps(c), s, run) == Some(t)
    ensures Closed(c, t) && WorkSteps(run) + Potential(t) <= Potential(s)
    decreases |run|
  {
    hide Potential, Closed, Step;
    if run != [] {
      ClosedStep(c, s, run[0]);
      CloseBoundsEveryRun(c, Step(c, s, run[0]).value, run[1..], t);
    }
  }

  ghost predicate AllGone(s: State) {
    forall j :: 0 <= j < |s.workers| ==> s.workers[j].Gone?
  }

  /** No worker can move. */
  ghost predicate AtRest(c: Config, s: State) {
    forall j, op :: Step(c, s, Work(j, op)).None?
  }

  /**
    When the workers have come to rest after Close all have left, so Wait returns, and every job
    received was run.
   */
  lemma RestMeansGone(c: Config, s: State)
    requires Closed(c, s) && AtRest(c, s)
    ensures AllGone(s) && multiset(s.intake.jobs.taken) == s.finished
  {
    Intake.DoneFacts(s.intake);
    forall j: nat | j < |s.workers|
      ensures s.workers[j].Gone?
    {
      assert Step(c, s, Work(j, SeeCancel)).None?;
      assert Step(c, s, Work(j, EndJob)).None?;
      hide Inv;
    }
    BagEmpty(InHand, s.workers);
  }

  // ---- jobs left behind: Close cancels the workers before it closes the queue ----

  /** Whenever Close has returned and the workers are at rest, every accepted job has been run. */
  ghost predicate DrainsAlways(c: Config, subs: nat, closers: nat) {
    forall s :: Reaches(Steps(c), Init(c, subs, closers), s) && s.intake.gate.once.Done? && AtRest(c, s)
      ==> multiset(s.intake.jobs.accepted) == s.finished
  }

  function SubmitZero(op: Intake.Op): Action { Admission(Intake.Submit(0, op)) }

  /** Submitter 0 gets a job into the queue. */
  lemma QueueOne(c: Config, s0: State, s: State) returns (t: State)
    requires Reaches(Steps(c), s0, s) && s == s0 && c.cap > 0
    requires s.intake == Intake.Init(|s.intake.subs|, |s.intake.closers|) && |s.intake.subs| > 0
    ensures Reaches(Steps(c), s0, t) && t.workers == s.workers && !t.intake.panicked && t.intake.jobs.queue != []
    ensures t.intake.gate == Intake.Gate(false, false, false, Intake.Submitter(0), Intake.Fresh)
    ensures t.intake.closers == s.intake.closers
    ensures |t.intake.subs| > 0 && t.intake.subs[0].Post? && t.intake.subs[0].kind.TrySubmit?
  {
    t := Do(Steps(c), s0, s, SubmitZero(Intake.Begin(Intake.TrySubmit)));
    t := Do(Steps(c), s0, t, SubmitZero(Intake.Go));
    t := Do(Steps(c), s0, t, SubmitZero(Intake.Go));
    t := Do(Steps(c), s0, t, SubmitZero(Intake.Go));
    t := Do(Steps(c), s0, t, SubmitZero(Intake.Go));
  }

  lemma Unlock(c: Config, s0: State, s: State) returns (t: State)
    requires Reaches(Steps(c), s0, s) && !s.intake.panicked && |s.intake.subs| > 0
    requires s.intake.subs[0].Post? && s.intake.subs[0].kind.TrySubmit?
    ensures Reaches(Steps(c), s0, t) && t.workers == s.workers && !t.intake.panicked
    ensures t.intake.gate == s.intake.gate.(mu := Intake.Free) && t.intake.jobs == s.intake.jobs
    ensures t.intake.closers == s.intake.closers
  {
    t := Do(Steps(c), s0, s, SubmitZero(Intake.Go));
    t := Do(Steps(c), s0, t, SubmitZero(Intake.Go));
  }

  /** What goroutines inside Close do to the intake they do to the pool. */
  lemma CloserLifts(c: Config, s: State, t: Intake.State)
    requires Reaches(Intake.CloserSteps(c.Front()), s.intake, t)
    ensures Reaches(Steps(c), s, s.(intake := t))
  {
    var put := (x: Intake.State) => s.(intake := x);
    forall x, a | Intake.CloserSteps(c.Front())(x, a).Some?
      ensures Steps(c)(put(x), Admission(a)) == Some(put(Intake.CloserSteps(c.Front())(x, a).value))
    {
      hide Intake.Step;
    }
    Lift(Intake.CloserSteps(c.Front()), Steps(c), put, (a: Intake.Action) => Admission(a), s.intake, t);
  }

  lemma {:induction false} LeaveAll(c: Config, s0: State, s: State, r: nat) returns (t: State)
    requires Reaches(Steps(c), s0, s) && !s.intake.panicked && s.intake.gate.cancelled && r <= |s.workers|
    requires forall j :: 0 <= j < |s.workers| ==> if j < r then s.workers[j].Gone? else s.workers[j].Select?
    ensures Reaches(Steps(c), s0, t) && AllGone(t) && t.intake == s.intake
    decreases |s.workers| - r
  {
    t := s;
    if r < |s.workers| {
      t := Do(Steps(c), s0, t, Work(r, SeeCancel));
      t := LeaveAll(c, s0, t, r + 1);
    }
  }

  /** A job sent just before Close, and left in the queue by workers that all see the cancellation. */
  lemma LeftBehind(c: Config, subs: nat, closers: nat) returns (s: State)
    requires c.cap > 0 && subs > 0 && closers > 0
    ensures Reaches(Steps(c), Init(c, subs, closers), s) && s.intake.gate.once.Done? && AtRest(c, s)
    ensures s.intake.jobs.queue != []
  {
    var s0 := Init(c, subs, closers);
    ReachesRefl(Steps(c), s0);
    s := QueueOne(c, s0, s0);
    var u := Unlock(c, s0, s);
    s := u.(intake := u.intake.(gate := Intake.SHUT));
    Intake.CloseAll(c.Front(), u.intake);
    CloserLifts(c, u, s.intake);
    ReachesTrans(Steps(c), s0, u, s);
    s := LeaveAll(c, s0, s, 0);
  }

  /**
    Close drains what was accepted, in every run, exactly when there is no buffer to leave anything in
    or nobody submits.
   */
  lemma DrainsExactly(c: Config, subs: nat, closers: nat)
    requires closers > 0
    ensures DrainsAlways(c, subs, closers) <==> c.cap == 0 || subs == 0
  {
    if c.cap == 0 || subs == 0 {
      forall s | Reaches(Steps(c), Init(c, subs, closers), s) && s.intake.gate.once.Done? && AtRest(c, s)
        ensures multiset(s.intake.jobs.accepted) == s.finished
      {
        JobsConserved(c, subs, closers, s);
        ReachableInv(c, subs, closers, s);
        RestMeansGone(c, s);
        if c.cap > 0 {
          var run :| Exec(Steps(c), Init(c, 0, closers), run) == Some(s);
          IntakeRuns(c, Init(c, 0, closers), run, s);
          Intake.NobodySubmits(c.Front(), closers, s.intake);
        }
        assert s.intake.jobs.taken + [] == s.intake.jobs.taken;
      }
    } else {
      var s := LeftBehind(c, subs, closers);
      ReachableInv(c, subs, closers, s);
      JobsConserved(c, subs, closers, s);
      RestMeansGone(c, s);
      assert |multiset(s.intake.jobs.accepted)| > |multiset(s.intake.jobs.taken)|;
    }
  }

  // ---- calls return ----

  /** Where no submitting or closing goroutine can go on, none is in a call, whatever the workers do. */
  lemma CallsNeverDeadlock(c: Config, s: State)
    requires Inv(c, s) && forall a :: IntakeProgress.InProgress(s.intake, a) ==> Step(c, s, Admission(a)).None?
    ensures s.intake.gate.mu.Free?
    ensures forall i :: 0 <= i < |s.intake.subs| ==> s.intake.subs[i].Idle?
    ensures forall k :: 0 <= k < |s.intake.closers| ==> s.intake.closers[k].Outside?
  {
    assert Intake.SafeInv(s.intake);
    hide Inv, Intake.SafeInv, Intake.Step;
    forall a | IntakeProgress.InProgress(s.intake, a) ensures Intake.Step(c.Front(), s.intake, a).None? {
      assert Step(c, s, Admission(a)).None?;
    }
    IntakeProgress.NoDeadlock(c.Front(), s.intake);
  }

  // ---- before Close: nobody leaves, and no job is forgotten ----

  /** Workers leave only once the context is cancelled. */
  ghost predicate AllStay(s: State) {
    !s.intake.gate.cancelled ==> forall j :: 0 <= j < |s.workers| ==> !s.workers[j].Gone?
  }

  lemma AllStayStep(c: Config, s: State, a: Action)
    requires Inv(c, s) && AllStay(s) && Step(c, s, a).Some?
    ensures AllStay(Step(c, s, a).value)
  {
    Intake.CloseOrder(s.intake);
    hide Inv, Intake.Step;
    if !a.Work? {
      Intake.StepFrame(c.Front(), s.intake, if a.Meet? then Intake.Submit(a.i, Intake.Meet) else a.a);
    } else if a.op.TakeJob? {
      Intake.StepFrame(c.Front(), s.intake, Intake.Take);
    }
  }

  lemma RestingWorkers(c: Config, s: State)
    requires c.Valid() && Inv(c, s) && AllStay(s) && !s.intake.gate.cancelled && AtRest(c, s)
    ensures s.intake.jobs.queue == [] && forall j :: 0 <= j < |s.workers| ==> s.workers[j].Select?
    ensures multiset(s.intake.jobs.accepted) == s.finished
  {
    Intake.JobFacts(c.Front(), s.intake);
    assert Accounted(InHand, s.intake.jobs.taken, s.finished, s.workers) && |s.workers| == c.workers;
    hide Inv;
    forall j: nat | j < |s.workers| ensures s.workers[j].Select? {
      assert Step(c, s, Work(j, EndJob)).None?;
    }
    assert Step(c, s, Work(0, TakeJob)).None?;
    BagEmpty(InHand, s.workers);
    assert s.intake.jobs.taken + [] == s.intake.jobs.taken;
  }

  /** An open pool only comes to rest with all its workers in their select and nothing in the queue. */
  lemma OpenPoolGetsToEveryJob(c: Config, subs: nat, closers: nat, s: State)
    requires c.Valid() && Reaches(Steps(c), Init(c, subs, closers), s) && !s.intake.gate.cancelled && AtRest(c, s)
    ensures s.intake.jobs.queue == [] && forall j :: 0 <= j < |s.workers| ==> s.workers[j].Select?
    ensures multiset(s.intake.jobs.accepted) == s.finished
  {
    var inv := (x: State) => Inv(c, x) && AllStay(x);
    forall x, a | inv(x) && Steps(c)(x, a).Some?
      ensures inv(Steps(c)(x, a).value)
    {
      InvStep(c, x, a);
      AllStayStep(c, x, a);
    }
    InitInv(c, subs, closers);
    ReachesInductive(Steps(c), inv, Init(c, subs, closers), s);
    RestingWorkers(c, s);
  }
}
