/**
  What becomes of the calls of the service: every job submitted is accepted, or
  refused because the service is closed or its queue is full; an uncancelled
  service processes what it has accepted; and every Shutdown has closed the
  intake, and cancelled if it did more than wait, when it returns.
 */
module ServiceCalls {
  import opened Options
  import opened Runs
  import opened Sums
  import opened Bags
  import opened Service

  // ---- submitted jobs ----

  // the job of a Submit that has not been decided yet
  function Held(x: Caller): multiset<int> { if x.SubCheck? || x.SubSend? then multiset{x.job} else multiset{} }

  function SubmittedBy(a: Action): multiset<int> {
    if a.Call? && a.op.Submit? then multiset{a.op.job} else multiset{}
  }

  /** The job that a step turns away: closed is found closed, or the queue full. */
  function RefusedBy(c: Config, s: State, a: Action): multiset<int> {
    if !a.Call? || !a.op.Go? || a.i >= |s.callers| then multiset{}
    else match s.callers[a.i]
      case SubCheck(job) => if s.gate.closed then multiset{job} else multiset{}
      case SubSend(job) => if !s.gate.jobsClosed && |s.jobs.queue| >= c.cap then multiset{job} else multiset{}
      case _ => multiset{}
  }

  function Submitted(run: seq<Action>): multiset<int> {
    if run == [] then multiset{} else SubmittedBy(run[0]) + Submitted(run[1..])
  }

  function Refused(c: Config, s: State, run: seq<Action>): multiset<int>
    decreases |run|
  {
    if run == [] || Step(c, s, run[0]).None? then multiset{}
    else RefusedBy(c, s, run[0]) + Refused(c, Step(c, s, run[0]).value, run[1..])
  }

  /** The jobs accepted and those in the hands of callers. */
  function Known(s: State): multiset<int> { multiset(s.jobs.accepted) + Bag(Held, s.callers) }

  /** A caller moves, and nothing is accepted. */
  predicate Moves(s: State, i: nat, pc: Caller, t: State) {
    i < |s.callers| && t.callers == s.callers[i := pc] && t.jobs.accepted == s.jobs.accepted
  }

  lemma CallerKeeps(s: State, i: nat, pc: Caller, t: State)
    requires Moves(s, i, pc, t) && Held(pc) == Held(s.callers[i])
    ensures Known(t) == Known(s)
  {
    BagKeep(Held, s.callers, i, pc);
  }

  lemma CallerTakesOn(s: State, i: nat, pc: Caller, t: State)
    requires Moves(s, i, pc, t) && Held(s.callers[i]) == multiset{}
    ensures Known(t) == Known(s) + Held(pc)
  {
    BagGain(Held, s.callers, i, pc);
    var a := multiset(s.jobs.accepted);
    assert a + (Bag(Held, s.callers) + Held(pc)) == (a + Bag(Held, s.callers)) + Held(pc);
  }

  lemma CallerDrops(s: State, i: nat, pc: Caller, t: State)
    requires Moves(s, i, pc, t) && Held(pc) == multiset{}
    ensures Known(t) + Held(s.callers[i]) == Known(s)
  {
    BagLose(Held, s.callers, i, pc);
    var a := multiset(s.jobs.accepted);
    assert a + (Bag(Held, t.callers) + Held(s.callers[i])) == (a + Bag(Held, t.callers)) + Held(s.callers[i]);
  }

  /** Its job is accepted. */
  lemma AcceptKnows(s: State, i: nat, t: State)
    requires i < |s.callers| && s.callers[i].SubSend? && t.callers == s.callers[i := Idle]
    requires t.jobs.accepted == s.jobs.accepted + [s.callers[i].job]
    ensures Known(t) == Known(s)
  {
    BagLose(Held, s.callers, i, Idle);
    var a, job := multiset(s.jobs.accepted), multiset{s.callers[i].job};
    assert multiset(t.jobs.accepted) == a + job;
    assert (a + job) + Bag(Held, t.callers) == a + (Bag(Held, t.callers) + job);
  }

  lemma CheckKnows(c: Config, s: State, i: nat, op: Op)
    requires i < |s.callers| && s.callers[i].SubCheck? && CallStep(c, s, i, op).Some?
    ensures Known(CallStep(c, s, i, op).value) + RefusedBy(c, s, Call(i, op)) == Known(s)
  {
    hide Known;
    var t := CallStep(c, s, i, op).value;
    if s.gate.closed { CallerDrops(s, i, Idle, t); } else { CallerKeeps(s, i, t.callers[i], t); }
  }

  lemma SendKnows(c: Config, s: State, i: nat, op: Op)
    requires i < |s.callers| && s.callers[i].SubSend? && CallStep(c, s, i, op).Some?
    ensures Known(CallStep(c, s, i, op).value) + RefusedBy(c, s, Call(i, op)) == Known(s)
  {
    hide Known;
    var t := CallStep(c, s, i, op).value;
    if s.gate.jobsClosed {
      CallerKeeps(s, i, s.callers[i], t);
    } else if |s.jobs.queue| < c.cap {
      AcceptKnows(s, i, t);
    } else {
      CallerDrops(s, i, Idle, t);
    }
  }

  predicate InShutdown(x: Caller) { !x.Idle? && !x.SubCheck? && !x.SubSend? }

  lemma OtherFrame(c: Config, s: State, i: nat, op: Op)
    requires i < |s.callers| && (s.callers[i].Idle? || InShutdown(s.callers[i])) && CallStep(c, s, i, op).Some?
    ensures var t := CallStep(c, s, i, op).value;
      && Moves(s, i, t.callers[i], t)
      && (if s.callers[i].Idle? then t.callers[i] == if op.Submit? then SubCheck(op.job) else ShutCheck
          else !op.Submit? && (t.callers[i].Idle? || InShutdown(t.callers[i])))
  {
  }

  lemma OtherJobs(c: Config, s: State, i: nat, op: Op, t: State)
    requires i < |s.callers| && (s.callers[i].Idle? || InShutdown(s.callers[i])) && i < |t.callers|
    requires if s.callers[i].Idle? then t.callers[i] == if op.Submit? then SubCheck(op.job) else ShutCheck
             else !op.Submit? && (t.callers[i].Idle? || InShutdown(t.callers[i]))
    ensures Held(s.callers[i]) == multiset{} && Held(t.callers[i]) == SubmittedBy(Call(i, op))
    ensures RefusedBy(c, s, Call(i, op)) == multiset{}
  {
  }

  /** A call begins, or a Shutdown goes on. */
  lemma OtherKnows(c: Config, s: State, i: nat, op: Op)
    requires i < |s.callers| && (s.callers[i].Idle? || InShutdown(s.callers[i])) && CallStep(c, s, i, op).Some?
    ensures Known(CallStep(c, s, i, op).value) == Known(s) + SubmittedBy(Call(i, op))
    ensures RefusedBy(c, s, Call(i, op)) == multiset{}
  {
    hide CallStep, Known, Held, SubmittedBy, RefusedBy;
    OtherFrame(c, s, i, op);
    var t := CallStep(c, s, i, op).value;
    OtherJobs(c, s, i, op, t);
    CallerTakesOn(s, i, t.callers[i], t);
  }

  lemma CallKnows(c: Config, s: State, i: nat, op: Op)
    requires i < |s.callers| && CallStep(c, s, i, op).Some?
    ensures var t, a := CallStep(c, s, i, op).value, Call(i, op);
      Known(t) + RefusedBy(c, s, a) == Known(s) + SubmittedBy(a)
  {
    var x := s.callers[i];
    if x.SubCheck? {
      CheckKnows(c, s, i, op);
    } else if x.SubSend? {
      SendKnows(c, s, i, op);
    } else {
      OtherKnows(c, s, i, op);
    }
    assert x.SubCheck? || x.SubSend? ==> !op.Submit?;
    hide CallStep, RefusedBy, Known;
  }

  lemma MeetKnows(c: Config, s: State, i: nat, j: nat)
    requires MeetStep(c, s, i, j).Some?
    ensures Known(MeetStep(c, s, i, j).value) == Known(s)
  {
    AcceptKnows(s, i, MeetStep(c, s, i, j).value);
  }

  lemma StepKnows(c: Config, s: State, a: Action)
    requires Step(c, s, a).Some?
    ensures Known(Step(c, s, a).value) + RefusedBy(c, s, a) == Known(s) + SubmittedBy(a)
  {
    hide CallStep, MeetStep, WorkStep;
    match a
    case Call(i, op) => CallKnows(c, s, i, op);
    case Meet(i, j) => MeetKnows(c, s, i, j);
    case Work(j, branch) => WorkFrame(s, j, branch);
  }

  lemma Balance(a: multiset<int>, b: multiset<int>, d: multiset<int>, r: multiset<int>, p: multiset<int>,
      r': multiset<int>, p': multiset<int>)
    requires b + r == a + p && d + r' == b + p'
    ensures d + (r + r') == a + (p + p')
  {
    assert d + (r + r') == (d + r') + r;
    assert (b + p') + r == (b + r) + p';
    assert (a + p) + p' == a + (p + p');
  }

  lemma {:induction false} RunKnows(c: Config, s: State, run: seq<Action>, t: State)
    requires Exec(Steps(c), s, run) == Some(t)
    ensures Known(t) + Refused(c, s, run) == Known(s) + Submitted(run)
    decreases |run|
  {
    if run != [] {
      var u := Step(c, s, run[0]).value;
      StepKnows(c, s, run[0]);
      RunKnows(c, u, run[1..], t);
      hide Step, Known, RefusedBy, SubmittedBy;
      Balance(Known(s), Known(u), Known(t), RefusedBy(c, s, run[0]), SubmittedBy(run[0]),
              Refused(c, u, run[1..]), Submitted(run[1..]));
    }
  }

  /**
    Over every run, with any callers: each job submitted is accepted, refused, or still in its call; and refused are
    exactly those whose call found closed closed, or the queue full at its send.
   */
  lemma SubmitsAccounted(c: Config, callers: nat, run: seq<Action>, s: State)
    requires Exec(Steps(c), Init(c, callers), run) == Some(s)
    ensures Submitted(run) == multiset(s.jobs.accepted) + Bag(Held, s.callers) + Refused(c, Init(c, callers), run)
  {
    BagEmpty(Held, Init(c, callers).callers);
    RunKnows(c, Init(c, callers), run, s);
  }

  // ---- accepted jobs ----

  /** Before the cancellation workers leave only a closed and empty queue. */
  ghost predicate StayInv(s: State) {
    !s.gate.cancelled && !s.panicked ==>
      forall j :: 0 <= j < |s.workers| && s.workers[j].Exited? ==> s.gate.jobsClosed && s.jobs.queue == []
  }

  lemma StayStep(c: Config, s: State, a: Action)
    requires StayInv(s) && Step(c, s, a).Some?
    ensures StayInv(Step(c, s, a).value)
  {
    hide WorkStep;
    if a.Work? { WorkFrame(s, a.j, a.branch); }
  }

  lemma StayHolds(c: Config, callers: nat, s: State)
    requires Reaches(Steps(c), Init(c, callers), s)
    ensures StayInv(s)
  {
    forall x, a | StayInv(x) && Steps(c)(x, a).Some?
      ensures StayInv(Steps(c)(x, a).value)
    {
      StayStep(c, x, a);
    }
    ReachesInductive(Steps(c), StayInv, Init(c, callers), s);
  }

  /**
    Where the workers of an uncancelled service have come to rest they have processed every job accepted, whatever
    callers are about to do, whether or not the service has been closed.
   */
  lemma RestMeansProcessed(c: Config, callers: nat, s: State)
    requires c.workers > 0 && Reaches(Steps(c), Init(c, callers), s) && AtRest(c, s)
    requires !s.gate.cancelled && !s.panicked
    ensures s.jobs.queue == [] && s.jobs.processed == multiset(s.jobs.accepted)
  {
    StayHolds(c, callers, s);
    ReachableInv(c, callers, s);
    JobsConserved(c, callers, s);
    forall j: nat | j < |s.workers|
      ensures !s.workers[j].Working?
    {
      assert Step(c, s, Work(j, StepDone)).None?;
    }
    assert Step(c, s, Work(0, Receive)).None?;
    BagEmpty(InHand, s.workers);
    hide JobInv, AbandonInv, Step;
  }

  // ---- Shutdown calls ----

  predicate Waits(x: Caller) { x.ShutJobs? || x.SoftWait? || x.Escalate? || x.HardWait? }

  /** Who waits has found the intake closed, and who waits again has cancelled; the same holds of calls that returned. */
  ghost predicate ShutInv(s: State) {
    && (forall i :: 0 <= i < |s.callers| && Waits(s.callers[i]) ==> s.gate.closed)
    && (forall i :: 0 <= i < |s.callers| && s.callers[i].HardWait? ==> s.gate.cancelled)
    && (s.endings != [] ==> s.gate.closed)
    && (forall k :: 0 <= k < |s.endings| ==> s.endings[k].Drained? || s.gate.cancelled)
    && (forall k :: 0 <= k < |s.endings| ==> s.endings[k].GaveUp? || Done(s.workers))
  }

  /** A waiting call may return so. */
  predicate MayEnd(s: State, x: Caller, e: Ending) {
    Waits(x) && (e.Drained? || x.HardWait?) && (e.GaveUp? || Done(s.workers))
  }

  lemma ShutFrame(c: Config, s: State, i: nat, op: Op)
    requires i < |s.callers| && CallStep(c, s, i, op).Some?
    ensures var t := CallStep(c, s, i, op).value; var x := s.callers[i];
      && |t.callers| == |s.callers| && t.callers == s.callers[i := t.callers[i]] && t.workers == s.workers
      && (s.gate.closed ==> t.gate.closed) && (s.gate.cancelled ==> t.gate.cancelled)
      && (Waits(t.callers[i]) ==> Waits(x) || t.gate.closed)
      && (t.callers[i].HardWait? ==> x.HardWait? || t.gate.cancelled)
      && (t.endings == s.endings || exists e :: t.endings == s.endings + [e] && MayEnd(s, x, e))
  {
    var t := CallStep(c, s, i, op).value;
    if t.endings != s.endings {
      var e := if op.HardTimeout? then GaveUp else if s.callers[i].SoftWait? then Drained else Joined;
      assert t.endings == s.endings + [e] && MayEnd(s, s.callers[i], e);
    }
    assert s.callers[i := s.callers[i]] == s.callers;
  }

  lemma ShutCall(c: Config, s: State, i: nat, op: Op)
    requires ShutInv(s) && i < |s.callers| && CallStep(c, s, i, op).Some?
    ensures ShutInv(CallStep(c, s, i, op).value)
  {
    ShutFrame(c, s, i, op);
    hide CallStep, Waits, Done;
  }

  lemma ShutStep(c: Config, s: State, a: Action)
    requires ShutInv(s) && Step(c, s, a).Some?
    ensures ShutInv(Step(c, s, a).value)
  {
    hide WorkStep, CallStep;
    match a
    case Work(j, branch) => WorkFrame(s, j, branch);
    case Call(i, op) => ShutCall(c, s, i, op);
    case Meet(_, _) =>
  }

  function ShutdownCall(a: Action): nat { if a.Call? && a.op.Shutdown? then 1 else 0 }
  function Shutting(x: Caller): nat { if x.Idle? || x.SubCheck? || x.SubSend? then 0 else 1 }

  lemma CallCounts(c: Config, s: State, a: Action)
    requires Step(c, s, a).Some?
    ensures var t := Step(c, s, a).value;
      |t.endings| + Sum(Shutting, t.callers) == |s.endings| + Sum(Shutting, s.callers) + ShutdownCall(a)
  {
    match a
    case Work(j, branch) => WorkFrame(s, j, branch); hide WorkStep;
    case Meet(i, j) => SumUpdate(Shutting, s.callers, i, Idle);
    case Call(i, op) =>
      var pc := Step(c, s, a).value.callers[i];
      SumUpdate(Shutting, s.callers, i, pc);
      assert s.callers[i := s.callers[i]] == s.callers;
  }

  /**
    Over every run: each Shutdown called has returned, or is in progress. Those that returned have found the intake
    closed, by this or another call; unless they returned through done in the soft wait the context is cancelled, and
    unless they gave up every worker has left.
   */
  lemma ShutdownsAccounted(c: Config, callers: nat, run: seq<Action>, s: State)
    requires Exec(Steps(c), Init(c, callers), run) == Some(s)
    ensures |s.endings| + Sum(Shutting, s.callers) == Sum(ShutdownCall, run)
    ensures s.endings != [] ==> s.gate.closed
    ensures forall k :: 0 <= k < |s.endings| ==>
      (s.endings[k].Drained? || s.gate.cancelled) && (s.endings[k].GaveUp? || Done(s.workers))
  {
    var s0 := Init(c, callers);
    SumConstant(Shutting, s0.callers, 0);
    assert ShutInv(s0);
    var law := (h: seq<Action>, x: State) =>
      ShutInv(x) && |x.endings| + Sum(Shutting, x.callers) == Sum(ShutdownCall, h);
    forall h, x, a | law(h, x) && Steps(c)(x, a).Some?
      ensures law(h + [a], Steps(c)(x, a).value)
    {
      ShutStep(c, x, a);
      CallCounts(c, x, a);
      SumAppend(ShutdownCall, h, a);
    }
    HistoryHolds(Steps(c), law, s0, run, s);
  }

  // ---- calls end ----

  function CallRank(x: Caller): nat {
    match x
    case Idle => 0 case SubCheck(_) => 2 case SubSend(_) => 1
    case ShutCheck => 6 case ShutClosed => 5 case ShutJobs => 4 case SoftWait => 3 case Escalate => 2 case HardWait => 1
  }

  /** What a new call may cost. */
  function Cost(a: Action): nat {
    if !a.Call? then 0 else if a.op.Submit? then 2 else if a.op.Shutdown? then 6 else 0
  }

  /** A step of a call in progress. */
  function CallMove(a: Action): nat { if a.Meet? || (a.Call? && !a.op.Submit? && !a.op.Shutdown?) then 1 else 0 }

  lemma CallUsesUp(c: Config, s: State, a: Action)
    requires Step(c, s, a).Some? && !Step(c, s, a).value.panicked
    ensures var t := Step(c, s, a).value; CallMove(a) + Sum(CallRank, t.callers) <= Sum(CallRank, s.callers) + Cost(a)
  {
    match a
    case Work(j, branch) => WorkFrame(s, j, branch); hide WorkStep;
    case Meet(i, j) => SumUpdate(CallRank, s.callers, i, Idle);
    case Call(i, op) => SumUpdate(CallRank, s.callers, i, Step(c, s, a).value.callers[i]);
  }

  /** Calls take a bounded number of steps each, in every run without a panic: two for a Submit, six for a Shutdown. */
  lemma CallsEnd(c: Config, callers: nat, run: seq<Action>, s: State)
    requires Exec(Steps(c), Init(c, callers), run) == Some(s) && !s.panicked
    ensures Sum(CallMove, run) + Sum(CallRank, s.callers) <= Sum(Cost, run)
  {
    var s0 := Init(c, callers);
    SumConstant(CallRank, s0.callers, 0);
    var law := (h: seq<Action>, x: State) =>
      !x.panicked ==> Sum(CallMove, h) + Sum(CallRank, x.callers) <= Sum(Cost, h);
    forall h, x, a | law(h, x) && Steps(c)(x, a).Some?
      ensures law(h + [a], Steps(c)(x, a).value)
    {
      if !Steps(c)(x, a).value.panicked { CallUsesUp(c, x, a); }
      SumAppend(CallMove, h, a);
      SumAppend(Cost, h, a);
      hide Step, Cost, CallMove;
    }
    HistoryHolds(Steps(c), law, s0, run, s);
  }

  /** And none is ever stuck: it can go on, if only by its timeout. */
  lemma CallsNeverStuck(c: Config, s: State, i: nat)
    requires !s.panicked && i < |s.callers| && !s.callers[i].Idle?
    ensures exists op :: Step(c, s, Call(i, op)).Some?
  {
    var op := if s.callers[i].SoftWait? then SoftTimeout else if s.callers[i].HardWait? then HardTimeout else Go;
    assert Step(c, s, Call(i, op)).Some?;
  }
}
