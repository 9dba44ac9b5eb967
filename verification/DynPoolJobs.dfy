/** What happens to every job given to the dynamic pool, in every reachable state. */
module DynPoolJobs {
  import opened Options
  import opened Runs
  import opened Bags
  import Intake
  import IntakeCalls
  import opened DynPool
  import opened DynPoolBounds

  function InHand(w: Worker): multiset<Intake.Job> { if w.Busy? then multiset{w.job} else multiset{} }

  /** Every job received is being run by one worker, or its run has ended. */
  ghost predicate Ran(s: State) {
    Accounted(InHand, s.intake.jobs.taken, s.finished, s.pool.workers)
  }

  lemma RunAdmission(c: Config, s: State, a: Action)
    requires Ran(s) && Step(c, s, a).Some? && (a.Admission? || a.Meet?)
    ensures Ran(Step(c, s, a).value)
  {
    hide Accounted, Intake.Step;
    if a.Admission? {
      Intake.ReceivedFrame(c.Front(), s.intake, a.a);
      assert s.intake.jobs.taken + [] == s.intake.jobs.taken;
    } else {
      Intake.ReceivedFrame(c.Front(), s.intake, Intake.Submit(a.i, Intake.Meet));
      var job := s.intake.subs[a.i].job;
      PickUp(InHand, s.intake.jobs.taken, s.finished, s.pool.workers, a.j, Busy(job), job);
    }
  }

  lemma RunScale(c: Config, s: State, i: nat)
    requires Ran(s) && i < |s.scale| && ScaleStep(c, s, i).Some?
    ensures Ran(ScaleStep(c, s, i).value)
  {
    hide Accounted;
    Join(InHand, s.intake.jobs.taken, s.finished, s.pool.workers, Select(false));
  }

  lemma RunWork(c: Config, s: State, j: nat, op: WorkerOp)
    requires Ran(s) && j < |s.pool.workers| && WorkStep(c, s, j, op).Some?
    ensures Ran(WorkStep(c, s, j, op).value)
  {
    hide Accounted, Intake.Step;
    var ws := s.pool.workers;
    var w := WorkStep(c, s, j, op).value.pool.workers[j];
    if ws[j].Busy? {
      PutDown(InHand, s.intake.jobs.taken, s.finished, ws, j, w);
    } else if ws[j].Select? && op.TakeJob? {
      Intake.ReceivedFrame(c.Front(), s.intake, Intake.Take);
      PickUp(InHand, s.intake.jobs.taken, s.finished, ws, j, w, s.intake.jobs.queue[0]);
    } else {
      Carry(InHand, s.intake.jobs.taken, s.finished, ws, j, w);
    }
  }

  lemma RunStep(c: Config, s: State, a: Action)
    requires Ran(s) && Step(c, s, a).Some?
    ensures Ran(Step(c, s, a).value)
  {
    hide Ran, ScaleStep, WorkStep, AdmissionStep, MeetStep;
    match a
    case ScaleGo(i) => RunScale(c, s, i);
    case Work(j, op) => RunWork(c, s, j, op);
    case _ => RunAdmission(c, s, a);
  }

  /** In every reachable state jobs are conserved in order, and no step has sent on a closed queue or closed twice. */
  lemma JobsConserved(c: Config, subs: nat, closers: nat, s: State)
    requires c.Valid() && Reaches(Steps(c), Init(c, subs, closers), s)
    ensures Intake.Conserved(c.Front(), s.intake, Bag(InHand, s.pool.workers), s.finished) && !s.intake.panicked
  {
    var inv := (x: State) => Inv(c, x) && Ran(x);
    forall x, a | inv(x) && Steps(c)(x, a).Some?
      ensures inv(Steps(c)(x, a).value)
    {
      InvStep(c, x, a);
      RunStep(c, x, a);
    }
    InitBounds(c, 1, subs, closers);
    BagEmpty(InHand, Init(c, subs, closers).pool.workers);
    ReachesInductive(Steps(c), inv, Init(c, subs, closers), s);
    Intake.JobFacts(c.Front(), s.intake);
  }

  // ---- seen from its intake ----

  /** What an action of the pool is for the intake. */
  function IntakePart(a: Action): seq<Intake.Action> {
    match a
    case Admission(b) => [b]
    case Meet(i, _) => [Intake.Submit(i, Intake.Meet)]
    case ScaleGo(_) => []
    case Work(_, op) => if op.TakeJob? then [Intake.Take] else []
  }

  lemma IntakeMoves(c: Config, s: State, a: Action)
    requires Step(c, s, a).Some?
    ensures Exec(Intake.Steps(c.Front()), s.intake, IntakePart(a)) == Some(Step(c, s, a).value.intake)
  {
    hide Intake.Step;
    if IntakePart(a) != [] {
      assert IntakePart(a)[1..] == [];
      assert Exec(Intake.Steps(c.Front()), Step(c, s, a).value.intake, IntakePart(a)[1..])
          == Some(Step(c, s, a).value.intake);
    }
  }

  /** Every run of the pool is a run of the intake. */
  lemma IntakeRuns(c: Config, s: State, run: seq<Action>, t: State)
    requires Exec(Steps(c), s, run) == Some(t)
    ensures Exec(Intake.Steps(c.Front()), s.intake, Translate(IntakePart, run)) == Some(t.intake)
  {
    forall x, a | Steps(c)(x, a).Some?
      ensures Exec(Intake.Steps(c.Front()), x.intake, IntakePart(a)) == Some(Steps(c)(x, a).value.intake)
    {
      IntakeMoves(c, x, a);
    }
    Project(Intake.Steps(c.Front()), Steps(c), (x: State) => x.intake, IntakePart, s, run, t);
  }

  /** With nobody to submit nothing is ever queued. */
  lemma NothingQueued(c: Config, closers: nat, s: State)
    requires Reaches(Steps(c), Init(c, 0, closers), s)
    ensures s.intake.jobs.queue == []
  {
    var run :| Exec(Steps(c), Init(c, 0, closers), run) == Some(s);
    IntakeRuns(c, Init(c, 0, closers), run, s);
    Intake.NobodySubmits(c.Front(), closers, s.intake);
  }

  lemma StillWanted(run: seq<Action>, i: nat)
    requires Admission(Intake.Submit(i, Intake.CtxDone)) !in run
    ensures Intake.Submit(i, Intake.CtxDone) !in Translate(IntakePart, run)
  {
    var done := Intake.Submit(i, Intake.CtxDone);
    TranslateMember(IntakePart, run, done);
    assert forall a :: done in IntakePart(a) ==> a == Admission(done);
  }

  /**
    A SubmitWithContext of the pool keeps trying: unless its context is done or the pool closes, in every run its
    job is accepted or still pending.
   */
  lemma SubmitKeepsTrying(c: Config, s: State, run: seq<Action>, t: State, i: nat, job: Intake.Job)
    requires Inv(c, s) && Exec(Steps(c), s, run) == Some(t)
    requires i < |s.intake.subs| && s.intake.subs[i] == Intake.FirstCheck(Intake.SubmitWithContext, job)
    requires Admission(Intake.Submit(i, Intake.CtxDone)) !in run
    ensures || job in t.intake.jobs.accepted
            || (i < |t.intake.subs| && t.intake.subs[i].Pending() && t.intake.subs[i].job == job)
            || (t.intake.gate.closedCh && job in t.intake.jobs.rejected
                && t.intake.jobs.rejected[job] == Intake.Refusal(Intake.SubmitWithContext, Intake.ErrClosed))
  {
    assert Intake.Inv(c.Front(), s.intake);
    hide Inv, Intake.Inv, Step, IntakePart;
    IntakeRuns(c, s, run, t);
    StillWanted(run, i);
    IntakeCalls.KeepsTrying(c.Front(), s.intake, Translate(IntakePart, run), t.intake, i, job);
  }
}
