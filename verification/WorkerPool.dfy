/**
  The fixed worker pool: the intake protocol and a constant number of workers.
 */
module WorkerPool {
  import opened Options
  import opened Runs
  import opened Bags
  import Intake
  import IntakeCalls

  datatype Config = Config(workers: nat, cap: nat) {
    predicate Valid() { 0 < workers }
    function Front(): Intake.Config { Intake.Config(cap, false) }
  }

  datatype Worker = Select | Busy(job: Intake.Job) | Gone

  // finished: history of the jobs whose run has ended, by return, error or panic
  datatype State = State(intake: Intake.State, workers: seq<Worker>, finished: multiset<Intake.Job>)

  datatype WorkerOp = TakeJob | SeeCancel | SeeClosed | EndJob

  datatype Action =
    | Admission(a: Intake.Action)
    | Meet(i: nat, j: nat)        // an unbuffered send meets worker j
    | Work(j: nat, op: WorkerOp)

  function Init(c: Config, subs: nat, closers: nat): State {
    State(Intake.Init(subs, closers), seq(c.workers, j => Select), multiset{})
  }

  function WorkStep(c: Config, s: State, j: nat, op: WorkerOp): Option<State>
    requires j < |s.workers|
  {
    match s.workers[j]
    case Select =>
      (match op
       case TakeJob =>
         if s.intake.jobs.queue == [] then None
         else
           (match Intake.Step(c.Front(), s.intake, Intake.Take)
            case None => None
            case Some(t) => Some(s.(intake := t, workers := s.workers[j := Busy(s.intake.jobs.queue[0])])))
       case SeeCancel => if s.intake.gate.cancelled then Some(s.(workers := s.workers[j := Gone])) else None
       case SeeClosed =>
         if s.intake.gate.queueClosed && s.intake.jobs.queue == [] then Some(s.(workers := s.workers[j := Gone]))
         else None
       case EndJob => None)
    case Busy(job) =>
      // the job returns, fails or panics
      if op.EndJob? then Some(s.(workers := s.workers[j := Select], finished := s.finished + multiset{job})) else None
    case Gone => None
  }

  function Step(c: Config, s: State, a: Action): Option<State> {
    if s.intake.panicked then None
    else match a
      case Admission(b) =>
        if b.Take? || (b.Submit? && b.op.Meet?) then None
        else (match Intake.Step(c.Front(), s.intake, b)
          case None => None
          case Some(t) => Some(s.(intake := t)))
      case Meet(i, j) =>
        if i >= |s.intake.subs| || !s.intake.subs[i].Sending? || j >= |s.workers| || !s.workers[j].Select? then None
        else (match Intake.Step(c.Front(), s.intake, Intake.Submit(i, Intake.Meet))
          case None => None
          case Some(t) => Some(s.(intake := t, workers := s.workers[j := Busy(s.intake.subs[i].job)])))
      case Work(j, op) => if j < |s.workers| then WorkStep(c, s, j, op) else None
  }

  function Steps(c: Config): (State, Action) -> Option<State> {
    (s, a) => Step(c, s, a)
  }

  function InHand(w: Worker): multiset<Intake.Job> { if w.Busy? then multiset{w.job} else multiset{} }

  ghost predicate Inv(c: Config, s: State) {
    && Intake.Inv(c.Front(), s.intake)
    && |s.workers| == c.workers
    && Accounted(InHand, s.intake.jobs.taken, s.finished, s.workers)
  }

  lemma AdmissionInv(c: Config, s: State, a: Action)
    requires Inv(c, s) && Step(c, s, a).Some? && !a.Work?
    ensures Inv(c, Step(c, s, a).value)
  {
    hide Intake.Inv, Intake.Step, Accounted;
    var b := if a.Meet? then Intake.Submit(a.i, Intake.Meet) else a.a;
    Intake.InvStep(c.Front(), s.intake, b);
    Intake.ReceivedFrame(c.Front(), s.intake, b);
    if a.Meet? {
      var job := s.intake.subs[a.i].job;
      PickUp(InHand, s.intake.jobs.taken, s.finished, s.workers, a.j, Busy(job), job);
    } else {
      assert s.intake.jobs.taken + [] == s.intake.jobs.taken;
    }
  }

  lemma WorkInv(c: Config, s: State, j: nat, op: WorkerOp)
    requires Inv(c, s) && j < |s.workers| && WorkStep(c, s, j, op).Some?
    ensures Inv(c, WorkStep(c, s, j, op).value)
  {
    hide Intake.Inv, Intake.Step, Accounted;
    var w := WorkStep(c, s, j, op).value.workers[j];
    if s.workers[j].Busy? {
      PutDown(InHand, s.intake.jobs.taken, s.finished, s.workers, j, w);
    } else if op.TakeJob? {
      Intake.InvStep(c.Front(), s.intake, Intake.Take);
      Intake.ReceivedFrame(c.Front(), s.intake, Intake.Take);
      PickUp(InHand, s.intake.jobs.taken, s.finished, s.workers, j, w, s.intake.jobs.queue[0]);
    } else {
      Carry(InHand, s.intake.jobs.taken, s.finished, s.workers, j, w);
    }
  }

  lemma InvStep(c: Config, s: State, a: Action)
    requires Inv(c, s) && Step(c, s, a).Some?
    ensures Inv(c, Step(c, s, a).value)
  {
    hide Inv, WorkStep;
    match a
    case Work(j, op) => WorkInv(c, s, j, op);
    case _ => AdmissionInv(c, s, a);
  }

  lemma InitInv(c: Config, subs: nat, closers: nat)
    ensures Inv(c, Init(c, subs, closers))
  {
    Intake.InitInv(c.Front(), subs, closers);
    BagEmpty(InHand, Init(c, subs, closers).workers);
    hide Intake.Inv;
  }

  lemma ReachableInv(c: Config, subs: nat, closers: nat, s: State)
    requires Reaches(Steps(c), Init(c, subs, closers), s)
    ensures Inv(c, s)
  {
    var inv := (x: State) => Inv(c, x);
    forall x, a | inv(x) && Steps(c)(x, a).Some?
      ensures inv(Steps(c)(x, a).value)
    {
      InvStep(c, x, a);
    }
    InitInv(c, subs, closers);
    ReachesInductive(Steps(c), inv, Init(c, subs, closers), s);
  }

  /** In every reachable state jobs are conserved in order, and no step has sent on a closed queue or closed twice. */
  lemma JobsConserved(c: Config, subs: nat, closers: nat, s: State)
    requires Reaches(Steps(c), Init(c, subs, closers), s)
    ensures Intake.Conserved(c.Front(), s.intake, Bag(InHand, s.workers), s.finished) && !s.intake.panicked
    ensures |Bag(InHand, s.workers)| <= c.workers
  {
    ReachableInv(c, subs, closers, s);
    Intake.JobFacts(c.Front(), s.intake);
    BagSize(InHand, s.workers);
  }

  // ---- seen from its intake ----

  /** What an action of the pool is for the intake. */
  function IntakePart(a: Action): seq<Intake.Action> {
    match a
    case Admission(b) => [b]
    case Meet(i, _) => [Intake.Submit(i, Intake.Meet)]
    case Work(_, op) => if op.TakeJob? then [Intake.Take] else []
  }

  lemma IntakeMoves(c: Config, s: State, a: Action)
    requires Step(c, s, a).Some?
    ensures Exec(Intake.Steps(c.Front()), s.intake, IntakePart(a)) == Some(Step(c, s, a).value.intake)
  {
    hide Intake.Step;
    if IntakePart(a) != [] {
      assert IntakePart(a)[1..] == [];
      assert Exec(Intake.Steps(c.Front()), Step(c, s, a).value.intake, IntakePart(a)[1..])
          == Some(Step(c, s, a).value.intake);
    }
  }

  /** Every run of the pool is a run of the intake. */
  lemma IntakeRuns(c: Config, s: State, run: seq<Action>, t: State)
    requires Exec(Steps(c), s, run) == Some(t)
    ensures Exec(Intake.Steps(c.Front()), s.intake, Translate(IntakePart, run)) == Some(t.intake)
  {
    forall x, a | Steps(c)(x, a).Some?
      ensures Exec(Intake.Steps(c.Front()), x.intake, IntakePart(a)) == Some(Steps(c)(x, a).value.intake)
    {
      IntakeMoves(c, x, a);
    }
    Project(Intake.Steps(c.Front()), Steps(c), (x: State) => x.intake, IntakePart, s, run, t);
  }

  lemma StillWanted(run: seq<Action>, i: nat)
    requires Admission(Intake.Submit(i, Intake.CtxDone)) !in run
    ensures Intake.Submit(i, Intake.CtxDone) !in Translate(IntakePart, run)
  {
    var done := Intake.Submit(i, Intake.CtxDone);
    TranslateMember(IntakePart, run, done);
    assert forall a :: done in IntakePart(a) ==> a == Admission(done);
  }

  /**
    A SubmitWithContext of the pool keeps trying: unless its context is done or the pool closes, in every run its
    job is accepted or still pending.
   */
  lemma SubmitKeepsTrying(c: Config, s: State, run: seq<Action>, t: State, i: nat, job: Intake.Job)
    requires Inv(c, s) && Exec(Steps(c), s, run) == Some(t)
    requires i < |s.intake.subs| && s.intake.subs[i] == Intake.FirstCheck(Intake.SubmitWithContext, job)
    requires Admission(Intake.Submit(i, Intake.CtxDone)) !in run
    ensures || job in t.intake.jobs.accepted
            || (i < |t.intake.subs| && t.intake.subs[i].Pending() && t.intake.subs[i].job == job)
            || (t.intake.gate.closedCh && job in t.intake.jobs.rejected
                && t.intake.jobs.rejected[job] == Intake.Refusal(Intake.SubmitWithContext, Intake.ErrClosed))
  {
    assert Intake.Inv(c.Front(), s.intake);
    hide Inv, Intake.Inv, Step, IntakePart;
    IntakeRuns(c, s, run, t);
    StillWanted(run, i);
    IntakeCalls.KeepsTrying(c.Front(), s.intake, Translate(IntakePart, run), t.intake, i, job);
  }
}
