/**
  Graceful shutdown: a service whose workers read a job queue, a non-blocking
  Submit, and a Shutdown in phases (stop intake, soft drain, hard cancel). The
  closed check of Submit and its send are not made under a lock.
 */
module Service {
  import opened Options
  import opened Runs
  import opened Sums
  import opened Bags

  datatype Config = Config(workers: nat, cap: nat)

  // Select: between jobs. Working: waiting for the step timer of a job, or for the context.
  datatype Worker = Select | Working(job: int) | Exited

  /** Where a caller stands. SubSend has passed the closed check; ShutJobs has closed closed but not yet jobs. */
  datatype Caller =
    | Idle
    | SubCheck(job: int)
    | SubSend(job: int)
    | ShutCheck
    | ShutClosed
    | ShutJobs
    | SoftWait
    | Escalate
    | HardWait

  datatype Ending = Drained | Joined | GaveUp

  datatype Gate = Gate(closed: bool, jobsClosed: bool, cancelled: bool)

  // accepted, taken: history in order; processed, abandoned: history of how the run of a job ended
  datatype Jobs = Jobs(queue: seq<int>, accepted: seq<int>, taken: seq<int>,
                       processed: multiset<int>, abandoned: multiset<int>)

  // endings: how the Shutdown calls returned; panicked: a send on closed jobs, or a second close
  datatype State = State(gate: Gate, jobs: Jobs, workers: seq<Worker>, callers: seq<Caller>,
                         endings: seq<Ending>, panicked: bool)

  datatype Op = Submit(job: int) | Shutdown | Go | SoftTimeout | HardTimeout
  datatype Branch = SeeCancel | Receive | StepDone

  datatype Action =
    | Call(i: nat, op: Op)
    | Meet(i: nat, j: nat)     // an unbuffered send meets worker j
    | Work(j: nat, branch: Branch)

  function Init(c: Config, callers: nat): State {
    State(Gate(false, false, false), Jobs([], [], [], multiset{}, multiset{}),
          seq(c.workers, j => Select), seq(callers, i => Idle), [], false)
  }

  /** done is closed once every worker has left. */
  predicate Done(ws: seq<Worker>) { forall j :: 0 <= j < |ws| ==> ws[j].Exited? }

  function Goto(s: State, i: nat, pc: Caller): State
    requires i < |s.callers|
  {
    s.(callers := s.callers[i := pc])
  }

  /** A caller moves and closes or cancels something. */
  function GotoWith(s: State, i: nat, pc: Caller, gate: Gate): State
    requires i < |s.callers|
  {
    s.(callers := s.callers[i := pc], gate := gate)
  }

  /** A Shutdown returns. */
  function Return(s: State, i: nat, ending: Ending): State
    requires i < |s.callers|
  {
    s.(callers := s.callers[i := Idle], endings := s.endings + [ending])
  }

  function SendStep(c: Config, s: State, i: nat, job: int): State
    requires i < |s.callers|
  {
    if s.gate.jobsClosed then s.(panicked := true)
    else if |s.jobs.queue| < c.cap then
      s.(callers := s.callers[i := Idle],
         jobs := s.jobs.(queue := s.jobs.queue + [job], accepted := s.jobs.accepted + [job]))
    else Goto(s, i, Idle)
  }

  function CallStep(c: Config, s: State, i: nat, op: Op): Option<State>
    requires i < |s.callers|
  {
    var g := s.gate;
    match s.callers[i]
    case Idle =>
      if op.Submit? then Some(Goto(s, i, SubCheck(op.job)))
      else if op.Shutdown? then Some(Goto(s, i, ShutCheck))
      else None
    case SubCheck(job) => if op.Go? then Some(Goto(s, i, if g.closed then Idle else SubSend(job))) else None
    case SubSend(job) => if op.Go? then Some(SendStep(c, s, i, job)) else None
    case ShutCheck => if op.Go? then Some(Goto(s, i, if g.closed then SoftWait else ShutClosed)) else None
    case ShutClosed =>
      if op.Go? then Some(if g.closed then s.(panicked := true) else GotoWith(s, i, ShutJobs, g.(closed := true)))
      else None
    case ShutJobs =>
      if op.Go? then Some(if g.jobsClosed then s.(panicked := true) else GotoWith(s, i, SoftWait, g.(jobsClosed := true)))
      else None
    case SoftWait =>
      if op.Go? && Done(s.workers) then Some(Return(s, i, Drained))
      else if op.SoftTimeout? then Some(Goto(s, i, Escalate))
      else None
    case Escalate => if op.Go? then Some(GotoWith(s, i, HardWait, g.(cancelled := true))) else None
    case HardWait =>
      if op.Go? && Done(s.workers) then Some(Return(s, i, Joined))
      else if op.HardTimeout? then Some(Return(s, i, GaveUp))
      else None
  }

  function WorkStep(s: State, j: nat, branch: Branch): Option<State>
    requires j < |s.workers|
  {
    var m := s.jobs;
    match s.workers[j]
    case Select =>
      if branch.SeeCancel? && s.gate.cancelled then Some(s.(workers := s.workers[j := Exited]))
      else if branch.Receive? && m.queue != [] then
        Some(s.(workers := s.workers[j := Working(m.queue[0])],
                jobs := m.(queue := m.queue[1..], taken := m.taken + [m.queue[0]])))
      else if branch.Receive? && s.gate.jobsClosed then Some(s.(workers := s.workers[j := Exited]))
      else None
    case Working(job) =>
      if branch.SeeCancel? && s.gate.cancelled then
        Some(s.(workers := s.workers[j := Exited], jobs := m.(abandoned := m.abandoned + multiset{job})))
      else if branch.StepDone? then
        Some(s.(workers := s.workers[j := Select], jobs := m.(processed := m.processed + multiset{job})))
      else None
    case Exited => None
  }

  function MeetStep(c: Config, s: State, i: nat, j: nat): Option<State> {
    if i >= |s.callers| || j >= |s.workers| || !s.callers[i].SubSend? || !s.workers[j].Select? || s.gate.jobsClosed
       || c.cap != 0 || s.jobs.queue != [] then None
    else
      var job := s.callers[i].job;
      Some(s.(callers := s.callers[i := Idle], workers := s.workers[j := Working(job)],
              jobs := s.jobs.(accepted := s.jobs.accepted + [job], taken := s.jobs.taken + [job])))
  }

  function Step(c: Config, s: State, a: Action): Option<State> {
    if s.panicked then None
    else match a
      case Call(i, op) => if i < |s.callers| then CallStep(c, s, i, op) else None
      case Meet(i, j) => MeetStep(c, s, i, j)
      case Work(j, branch) => if j < |s.workers| then WorkStep(s, j, branch) else None
  }

  function Steps(c: Config): (State, Action) -> Option<State> {
    (s, a) => Step(c, s, a)
  }

  // ---- jobs are conserved, whoever calls ----

  function InHand(w: Worker): multiset<int> { if w.Working? then multiset{w.job} else multiset{} }
  function Left(w: Worker): nat { if w.Exited? then 1 else 0 }

  /** Jobs leave the queue in order, and each one received is processed, abandoned or being worked on. */
  ghost predicate JobInv(c: Config, m: Jobs, ws: seq<Worker>) {
    && m.accepted == m.taken + m.queue
    && |m.queue| <= c.cap
    && Accounted(InHand, m.taken, m.processed + m.abandoned, ws)
  }

  /** A worker that abandoned a job has left, and only after the cancellation. */
  ghost predicate AbandonInv(cancelled: bool, m: Jobs, ws: seq<Worker>) {
    |m.abandoned| <= Sum(Left, ws) && (!cancelled ==> m.abandoned == multiset{})
  }

  lemma Leave(taken: seq<int>, p: multiset<int>, a: multiset<int>, ws: seq<Worker>, j: nat, w: Worker, processed: bool)
    requires j < |ws| && ws[j].Working? && !w.Working? && Accounted(InHand, taken, p + a, ws)
    ensures var job := multiset{ws[j].job};
      Accounted(InHand, taken, if processed then (p + job) + a else p + (a + job), ws[j := w])
  {
    PutDown(InHand, taken, p + a, ws, j, w);
    var job := multiset{ws[j].job};
    assert (p + job) + a == (p + a) + job;
    assert p + (a + job) == (p + a) + job;
  }

  lemma WorkJobs(c: Config, s: State, j: nat, branch: Branch)
    requires JobInv(c, s.jobs, s.workers) && j < |s.workers| && WorkStep(s, j, branch).Some?
    ensures var t := WorkStep(s, j, branch).value; JobInv(c, t.jobs, t.workers)
  {
    hide Accounted;
    var m, w := s.jobs, WorkStep(s, j, branch).value.workers[j];
    if s.workers[j].Working? {
      Leave(m.taken, m.processed, m.abandoned, s.workers, j, w, branch.StepDone?);
    } else if w.Working? {
      PickUp(InHand, m.taken, m.processed + m.abandoned, s.workers, j, w, m.queue[0]);
    } else {
      Carry(InHand, m.taken, m.processed + m.abandoned, s.workers, j, w);
    }
  }

  lemma JobStep(c: Config, s: State, a: Action)
    requires JobInv(c, s.jobs, s.workers) && Step(c, s, a).Some?
    ensures var t := Step(c, s, a).value; JobInv(c, t.jobs, t.workers)
  {
    hide Accounted, WorkStep;
    match a
    case Call(i, op) =>
    case Meet(i, j) =>
      var m, job := s.jobs, s.callers[i].job;
      PickUp(InHand, m.taken, m.processed + m.abandoned, s.workers, j, Working(job), job);
      assert m.queue == [];
    case Work(j, branch) => WorkJobs(c, s, j, branch);
  }

  lemma AbandonWork(s: State, j: nat, branch: Branch)
    requires AbandonInv(s.gate.cancelled, s.jobs, s.workers) && j < |s.workers| && WorkStep(s, j, branch).Some?
    ensures var t := WorkStep(s, j, branch).value; AbandonInv(t.gate.cancelled, t.jobs, t.workers)
  {
    SumUpdate(Left, s.workers, j, WorkStep(s, j, branch).value.workers[j]);
  }

  lemma AbandonStep(c: Config, s: State, a: Action)
    requires AbandonInv(s.gate.cancelled, s.jobs, s.workers) && Step(c, s, a).Some?
    ensures var t := Step(c, s, a).value; AbandonInv(t.gate.cancelled, t.jobs, t.workers)
  {
    hide WorkStep;
    match a
    case Call(i, op) =>
    case Meet(i, j) => SumUpdate(Left, s.workers, j, Working(s.callers[i].job));
    case Work(j, branch) => AbandonWork(s, j, branch);
  }

  // ---- every run, any number of callers ----

  ghost predicate Inv(c: Config, s: State) {
    && |s.workers| == c.workers
    && JobInv(c, s.jobs, s.workers)
    && AbandonInv(s.gate.cancelled, s.jobs, s.workers)
  }

  lemma WorkFrame(s: State, j: nat, branch: Branch)
    requires j < |s.workers| && WorkStep(s, j, branch).Some?
    ensures var t := WorkStep(s, j, branch).value;
      && (t.gate, t.callers, t.endings, t.panicked) == (s.gate, s.callers, s.endings, s.panicked)
      && t.jobs.accepted == s.jobs.accepted
      && !s.workers[j].Exited?
      && t.workers == s.workers[j := t.workers[j]] && |t.workers| == |s.workers|
      && (s.jobs.queue == [] ==> t.jobs.queue == [])
      && (!s.gate.cancelled && t.workers[j].Exited? ==> s.gate.jobsClosed && t.jobs.queue == [])
      && (!s.gate.cancelled ==> t.jobs.abandoned == s.jobs.abandoned)
  {
  }

  lemma InvStep(c: Config, s: State, a: Action)
    requires Inv(c, s) && Step(c, s, a).Some?
    ensures Inv(c, Step(c, s, a).value)
  {
    hide JobInv, AbandonInv, WorkStep;
    JobStep(c, s, a);
    AbandonStep(c, s, a);
    if a.Work? { WorkFrame(s, a.j, a.branch); }
  }

  lemma InitInv(c: Config, callers: nat)
    ensures Inv(c, Init(c, callers))
  {
    BagEmpty(InHand, Init(c, callers).workers);
  }

  lemma ReachableInv(c: Config, callers: nat, s: State)
    requires Reaches(Steps(c), Init(c, callers), s)
    ensures Inv(c, s)
  {
    var inv := (x: State) => Inv(c, x);
    forall x, a | inv(x) && Steps(c)(x, a).Some?
      ensures inv(Steps(c)(x, a).value)
    {
      InvStep(c, x, a);
    }
    InitInv(c, callers);
    ReachesInductive(Steps(c), inv, Init(c, callers), s);
  }

  lemma {:induction false} HandsOrLeft(ws: seq<Worker>)
    ensures |Bag(InHand, ws)| + Sum(Left, ws) <= |ws|
  {
    if ws != [] { HandsOrLeft(ws[..|ws| - 1]); }
  }

  /** Accepted jobs are processed, abandoned (at most one per worker), in a worker's hand, or still queued. */
  lemma JobsConserved(c: Config, callers: nat, s: State)
    requires Reaches(Steps(c), Init(c, callers), s)
    ensures s.jobs.accepted == s.jobs.taken + s.jobs.queue && |s.jobs.queue| <= c.cap
    ensures multiset(s.jobs.accepted)
         == s.jobs.processed + s.jobs.abandoned + Bag(InHand, s.workers) + multiset(s.jobs.queue)
    ensures |s.jobs.abandoned| + |Bag(InHand, s.workers)| <= c.workers
    ensures !s.gate.cancelled ==> s.jobs.abandoned == multiset{}
  {
    ReachableInv(c, callers, s);
    assert multiset(s.jobs.accepted) == multiset(s.jobs.taken) + multiset(s.jobs.queue);
    HandsOrLeft(s.workers);
  }

  // ---- one owner ----

  /** With a single caller the closed check of Submit still holds at its send. */
  ghost predicate OwnerInv(g: Gate, callers: seq<Caller>, endings: seq<Ending>) {
    && |callers| <= 1
    && (|callers| == 1 ==>
          match callers[0]
          case SubSend(_) => !g.closed && !g.jobsClosed
          case ShutClosed => !g.closed && !g.jobsClosed
          case ShutJobs => g.closed && !g.jobsClosed
          case SubCheck(_) => g.closed == g.jobsClosed
          case Idle => g.closed == g.jobsClosed
          case ShutCheck => g.closed == g.jobsClosed
          case _ => g.closed && g.jobsClosed)
    && (g.cancelled ==> endings != [] || (|callers| == 1 && callers[0].HardWait?))
    && (endings != [] ==> g.closed && g.jobsClosed)
  }

  /** Before the cancellation workers leave only once the intake is closed and the queue empty. */
  ghost predicate DrainInv(g: Gate, m: Jobs, ws: seq<Worker>, endings: seq<Ending>) {
    && (!g.cancelled && Sum(Left, ws) > 0 ==> g.jobsClosed && m.queue == [])
    && (endings != [] && endings[0].Drained? && |ws| > 0 ==> Done(ws) && m.queue == [] && m.abandoned == multiset{})
  }

  lemma OwnerStep(c: Config, s: State, a: Action)
    requires OwnerInv(s.gate, s.callers, s.endings) && Step(c, s, a).Some?
    ensures var t := Step(c, s, a).value; OwnerInv(t.gate, t.callers, t.endings) && !t.panicked
  {
    hide WorkStep;
    if a.Work? { WorkFrame(s, a.j, a.branch); }
  }

  lemma DrainStep(c: Config, s: State, a: Action)
    requires OwnerInv(s.gate, s.callers, s.endings) && DrainInv(s.gate, s.jobs, s.workers, s.endings)
    requires AbandonInv(s.gate.cancelled, s.jobs, s.workers) && Step(c, s, a).Some?
    ensures var t := Step(c, s, a).value; DrainInv(t.gate, t.jobs, t.workers, t.endings)
  {
    hide WorkStep;
    match a
    case Work(j, branch) =>
      WorkFrame(s, j, branch);
      SumUpdate(Left, s.workers, j, WorkStep(s, j, branch).value.workers[j]);
    case Meet(i, j) => SumUpdate(Left, s.workers, j, Working(s.callers[i].job));
    case Call(i, op) =>
      if Done(s.workers) && |s.workers| > 0 { SumMember(Left, s.workers, 0); }
  }

  ghost predicate SingleInv(c: Config, s: State) {
    && Inv(c, s)
    && OwnerInv(s.gate, s.callers, s.endings)
    && DrainInv(s.gate, s.jobs, s.workers, s.endings)
    && !s.panicked
  }

  lemma SingleStep(c: Config, s: State, a: Action)
    requires SingleInv(c, s) && Step(c, s, a).Some?
    ensures SingleInv(c, Step(c, s, a).value)
  {
    InvStep(c, s, a);
    OwnerStep(c, s, a);
    hide JobInv, OwnerInv, Step;
    assert AbandonInv(s.gate.cancelled, s.jobs, s.workers);
    hide Inv;
    DrainStep(c, s, a);
  }

  lemma SingleReachable(c: Config, callers: nat, s: State)
    requires callers <= 1 && Reaches(Steps(c), Init(c, callers), s)
    ensures SingleInv(c, s)
  {
    var inv := (x: State) => SingleInv(c, x);
    forall x, a | inv(x) && Steps(c)(x, a).Some?
      ensures inv(Steps(c)(x, a).value)
    {
      SingleStep(c, x, a);
    }
    InitInv(c, callers);
    SumConstant(Left, Init(c, callers).workers, 0);
    ReachesInductive(Steps(c), inv, Init(c, callers), s);
  }

  lemma BothChecked(c: Config, callers: nat) returns (s: State)
    requires callers >= 2
    ensures Reaches(Steps(c), Init(c, callers), s) && !s.panicked && s.gate == Gate(false, false, false)
    ensures |s.callers| == callers && s.callers[0] == SubSend(7) && s.callers[1] == ShutClosed
  {
    var s0 := Init(c, callers);
    ReachesRefl(Steps(c), s0);
    s := Do(Steps(c), s0, s0, Call(0, Submit(7)));
    s := Do(Steps(c), s0, s, Call(0, Go));
    s := Do(Steps(c), s0, s, Call(1, Shutdown));
    s := Do(Steps(c), s0, s, Call(1, Go));
  }

  /** Shutdown closes both channels. */
  lemma CloseBoth(c: Config, s0: State, s: State, i: nat) returns (t: State)
    requires Reaches(Steps(c), s0, s) && !s.panicked && s.gate == Gate(false, false, false)
    requires i < |s.callers| && s.callers[i] == ShutClosed
    ensures Reaches(Steps(c), s0, t)
    ensures t == s.(callers := s.callers[i := SoftWait], gate := Gate(true, true, false))
  {
    t := Do(Steps(c), s0, s, Call(i, Go));
    t := Do(Steps(c), s0, t, Call(i, Go));
    assert t.callers == s.callers[i := SoftWait];
  }

  /** Submit passes its check, Shutdown closes both channels, Submit sends. */
  lemma SendAfterClose(c: Config, callers: nat) returns (s: State)
    requires callers >= 2
    ensures Reaches(Steps(c), Init(c, callers), s) && s.panicked
  {
    s := BothChecked(c, callers);
    s := CloseBoth(c, Init(c, callers), s, 1);
    s := Do(Steps(c), Init(c, callers), s, Call(0, Go));
  }

  ghost predicate NeverPanics(c: Config, callers: nat) {
    forall s :: Reaches(Steps(c), Init(c, callers), s) ==> !s.panicked
  }

  /** No step sends on closed jobs or closes a channel twice, exactly when one goroutine makes all the calls. */
  lemma PanicFreeExactly(c: Config, callers: nat)
    ensures NeverPanics(c, callers) <==> callers <= 1
  {
    if callers <= 1 {
      forall s | Reaches(Steps(c), Init(c, callers), s)
        ensures !s.panicked
      {
        SingleReachable(c, callers, s);
      }
    } else {
      var s := SendAfterClose(c, callers);
    }
  }

  /** The first Shutdown returned through done before its soft timeout. */
  predicate DrainedFirst(s: State) { s.endings != [] && s.endings[0].Drained? }

  /** Then every accepted job has been fully processed, whatever later calls do. */
  lemma GracefulDrain(c: Config, s: State)
    requires c.workers > 0 && Reaches(Steps(c), Init(c, 1), s) && DrainedFirst(s)
    ensures multiset(s.jobs.accepted) == s.jobs.processed
  {
    SingleReachable(c, 1, s);
    BagEmpty(InHand, s.workers);
    assert s.jobs.taken + [] == s.jobs.taken;
  }

  /** What the report of a graceful drain promises, for any number of goroutines that call. */
  ghost predicate DrainsGracefully(c: Config, callers: nat) {
    forall s :: Reaches(Steps(c), Init(c, callers), s) && DrainedFirst(s) ==> multiset(s.jobs.accepted) == s.jobs.processed
  }

  // ---- reports that are wrong ----

  /** A Shutdown by goroutine i gets to its soft wait, on open channels or after somebody else's Shutdown. */
  lemma ShutdownTo(c: Config, s0: State, s: State, i: nat) returns (t: State)
    requires Reaches(Steps(c), s0, s) && !s.panicked && i < |s.callers| && s.callers[i].Idle?
    requires s.gate == Gate(false, false, false) || s.gate == Gate(true, true, false)
    ensures Reaches(Steps(c), s0, t)
    ensures t == s.(callers := s.callers[i := SoftWait], gate := Gate(true, true, false))
  {
    t := Do(Steps(c), s0, s, Call(i, Shutdown));
    t := Do(Steps(c), s0, t, Call(i, Go));
    if !s.gate.closed { t := CloseBoth(c, s0, t, i); }
    assert t.callers == s.callers[i := SoftWait];
  }

  /** Caller 0 gets one job accepted: into the queue, or by worker 0. */
  lemma AcceptOne(c: Config, callers: nat) returns (s: State)
    requires callers > 0 && (c.cap > 0 || c.workers > 0)
    ensures Reaches(Steps(c), Init(c, callers), s)
    ensures s.jobs.accepted == [7] && s.jobs.processed == multiset{}
    ensures s == Init(c, callers).(jobs := s.jobs, workers := s.workers)
    ensures |s.workers| == c.workers && forall j :: 0 <= j < |s.workers| ==> !s.workers[j].Exited?
  {
    var s0 := Init(c, callers);
    ReachesRefl(Steps(c), s0);
    s := Do(Steps(c), s0, s0, Call(0, Submit(7)));
    s := Do(Steps(c), s0, s, Call(0, Go));
    s := Do(Steps(c), s0, s, if c.cap > 0 then Call(0, Go) else Meet(0, 0));
    assert s.callers == s0.callers;
  }

  /** The workers from r on see the cancellation, with or without a job in hand. */
  lemma {:induction false} ExitAll(c: Config, s0: State, s: State, r: nat) returns (t: State)
    requires Reaches(Steps(c), s0, s) && !s.panicked && s.gate.cancelled && r <= |s.workers|
    requires forall j :: 0 <= j < |s.workers| ==> (s.workers[j].Exited? <==> j < r)
    ensures Reaches(Steps(c), s0, t) && Done(t.workers)
    ensures t == s.(workers := t.workers, jobs := s.jobs.(abandoned := t.jobs.abandoned))
    decreases |s.workers| - r
  {
    t := s;
    if r < |s.workers| {
      t := Do(Steps(c), s0, s, Work(r, SeeCancel));
      t := ExitAll(c, s0, t, r + 1);
    }
  }

  /** Without workers, a job can be accepted and the Shutdown that never touches it reports a graceful drain. */
  lemma NobodyDrains(c: Config, callers: nat) returns (s: State)
    requires c.workers == 0 && c.cap > 0 && callers > 0
    ensures Reaches(Steps(c), Init(c, callers), s) && DrainedFirst(s)
    ensures s.jobs.accepted == [7] && s.jobs.processed == multiset{}
  {
    var s0 := Init(c, callers);
    var u := AcceptOne(c, callers);
    u := ShutdownTo(c, s0, u, 0);
    s := Do(Steps(c), s0, u, Call(0, Go));
  }

  /** A soft wait times out, and its Shutdown cancels. */
  lemma Escalates(c: Config, s0: State, s: State, i: nat) returns (t: State)
    requires Reaches(Steps(c), s0, s) && !s.panicked && i < |s.callers| && s.callers[i].SoftWait?
    ensures Reaches(Steps(c), s0, t)
    ensures t == s.(callers := s.callers[i := HardWait], gate := s.gate.(cancelled := true))
  {
    t := Do(Steps(c), s0, s, Call(i, SoftTimeout));
    t := Do(Steps(c), s0, t, Call(i, Go));
    assert t.callers == s.callers[i := HardWait];
  }

  /**
    Two Shutdown calls: one takes its soft timeout and cancels, the workers leave, and the other returns
    through done before its own timeout.
   */
  lemma OtherCancels(c: Config, callers: nat) returns (s: State)
    requires c.workers > 0 && callers >= 2
    ensures Reaches(Steps(c), Init(c, callers), s) && DrainedFirst(s)
    ensures s.jobs.accepted == [7] && s.jobs.processed == multiset{}
  {
    var s0 := Init(c, callers);
    var u := AcceptOne(c, callers);
    u := ShutdownTo(c, s0, u, 0);
    u := ShutdownTo(c, s0, u, 1);
    u := Escalates(c, s0, u, 1);
    u := ExitAll(c, s0, u, 0);
    s := Do(Steps(c), s0, u, Call(0, Go));
  }

  lemma NobodyCalls(c: Config, s: State)
    requires Reaches(Steps(c), Init(c, 0), s)
    ensures s.endings == []
  {
    var inv := (x: State) => x.callers == [] && x.endings == [];
    forall x, a | inv(x) && Steps(c)(x, a).Some?
      ensures inv(Steps(c)(x, a).value)
    {
      if a.Work? { WorkFrame(x, a.j, a.branch); }
    }
    ReachesInductive(Steps(c), inv, Init(c, 0), s);
  }

  /**
    The report of a graceful drain is right in every run exactly when nobody calls, or there is nothing a
    job could be accepted by, or a single goroutine makes the calls and there is a worker.
   */
  lemma GracefulExactly(c: Config, callers: nat)
    ensures DrainsGracefully(c, callers)
       <==> callers == 0 || (c.workers == 0 && c.cap == 0) || (callers == 1 && c.workers > 0)
  {
    if callers == 0 || (c.workers == 0 && c.cap == 0) || (callers == 1 && c.workers > 0) {
      forall s | Reaches(Steps(c), Init(c, callers), s) && DrainedFirst(s)
        ensures multiset(s.jobs.accepted) == s.jobs.processed
      {
        if callers == 0 {
          NobodyCalls(c, s);
        } else if c.workers == 0 {
          JobsConserved(c, callers, s);
          assert s.jobs.queue == [];
        } else {
          GracefulDrain(c, s);
        }
      }
    } else {
      var s: State;
      if c.workers == 0 {
        s := NobodyDrains(c, callers);
      } else {
        s := OtherCancels(c, callers);
      }
      assert 7 in multiset(s.jobs.accepted);
    }
  }

  // ---- once jobs is closed ----

  function Rank(w: Worker): nat {
    match w case Select => 1 case Working(_) => 2 case Exited => 0
  }

  function StepsLeft(s: State): nat { 2 * |s.jobs.queue| + Sum(Rank, s.workers) }

  function WorkSteps(run: seq<Action>): nat {
    if run == [] then 0 else (if run[0].Work? then 1 else 0) + WorkSteps(run[1..])
  }

  lemma WorkUsesUp(s: State, j: nat, branch: Branch)
    requires j < |s.workers| && WorkStep(s, j, branch).Some?
    ensures var t := WorkStep(s, j, branch).value; t.gate == s.gate && StepsLeft(t) < StepsLeft(s)
  {
    SumUpdate(Rank, s.workers, j, WorkStep(s, j, branch).value.workers[j]);
  }

  lemma ClosedStep(c: Config, s: State, a: Action)
    requires s.gate.jobsClosed && Step(c, s, a).Some?
    ensures var t := Step(c, s, a).value;
      t.gate.jobsClosed && (if a.Work? then StepsLeft(t) < StepsLeft(s) else StepsLeft(t) == StepsLeft(s))
  {
    if a.Work? {
      WorkUsesUp(s, a.j, a.branch);
      hide WorkStep, StepsLeft;
    }
  }

  /** Once jobs is closed the workers take a bounded number of steps, whatever callers do. */
  lemma {:induction false} ShutdownBoundsEveryRun(c: Config, s: State, run: seq<Action>, t: State)
    requires s.gate.jobsClosed && Exec(Steps(c), s, run) == Some(t)
    ensures t.gate.jobsClosed && WorkSteps(run) + StepsLeft(t) <= StepsLeft(s)
    decreases |run|
  {
    if run != [] {
      ClosedStep(c, s, run[0]);
      hide StepsLeft, Step;
      ShutdownBoundsEveryRun(c, Step(c, s, run[0]).value, run[1..], t);
    }
  }

  /** No worker can move. */
  ghost predicate AtRest(c: Config, s: State) {
    forall j, branch :: Step(c, s, Work(j, branch)).None?
  }

  /** When the workers have come to rest all have left, and every waiting Shutdown can return through done. */
  lemma RestMeansDone(c: Config, s: State)
    requires s.gate.jobsClosed && !s.panicked && AtRest(c, s)
    ensures Done(s.workers)
    ensures forall i :: 0 <= i < |s.callers| && (s.callers[i].SoftWait? || s.callers[i].HardWait?) ==>
      Step(c, s, Call(i, Go)).Some?
  {
    forall j: nat | j < |s.workers| ensures s.workers[j].Exited? {
      assert Step(c, s, Work(j, Receive)).None? && Step(c, s, Work(j, StepDone)).None?;
    }
  }
}
