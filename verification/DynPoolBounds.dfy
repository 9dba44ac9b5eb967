/**
  How many workers the dynamic pool can have, in every reachable state. The
  bounds depend on how many maybeScaleUp calls are in flight at once:
  SubmitWithContext makes its call outside mu, TrySubmit inside.
 */
module DynPoolBounds {
  import opened Options
  import opened Runs
  import opened Sums
  import Intake
  import opened DynPool

  /** Runs in which at most n calls are inside maybeScaleUp at once. */
  function BoundedSteps(c: Config, n: nat): (State, Action) -> Option<State> {
    (s: State, a: Action) =>
      match Step(c, s, a)
      case Some(t) => if Calls(t) <= n then Some(t) else None
      case None => None
  }

  /** Runs in which nobody calls SubmitWithContext. */
  function TrySubmitSteps(c: Config): (State, Action) -> Option<State> {
    (s: State, a: Action) =>
      if a.Admission? && a.a.Submit? && a.a.op == Intake.Begin(Intake.SubmitWithContext) then None else Step(c, s, a)
  }

  /**
    With at most n >= 1 calls in flight, a full counter means that some call is
    neither past its load nor owing an undo: the one that filled it, for as long
    as it is in flight, and no load passes a full counter.
   */
  ghost predicate BoundInv(c: Config, n: nat, s: State) {
    && Calls(s) <= n
    && Undos(s) < n
    && (s.pool.counter >= c.max ==> Sum(Loaded, s.scale) < n)
    && (!s.intake.gate.cancelled ==> c.min <= Registered(s) + (n - 1))
  }

  lemma {:induction false} LoadedOrSpawning(scale: seq<Scale>)
    ensures Sum(Loaded, scale) + Sum(Spawning, scale) <= Sum(InFlight, scale)
  {
    if scale != [] { LoadedOrSpawning(scale[..|scale| - 1]); }
  }

  lemma LoadedCalls(scale: seq<Scale>)
    ensures Sum(Owing, scale) <= Sum(Loaded, scale)
    ensures Sum(Loaded, scale) + Sum(Spawning, scale) <= Sum(InFlight, scale)
  {
    SumMonotone(Owing, Loaded, scale);
    LoadedOrSpawning(scale);
  }

  /** The optimistic add: it fills the counter, overshoots it, or does neither. */
  lemma BoundAdd(c: Config, n: nat, s: State, i: nat)
    requires CountInv(c, s.pool, s.scale) && BoundInv(c, n, s) && i < |s.scale| && s.scale[i].AtAdd?
    ensures BoundInv(c, n, ScaleStep(c, s, i).value)
  {
    var t := ScaleStep(c, s, i).value;
    SlotSums(s.scale, i, t.scale[i]);
    LoadedCalls(s.scale);
    LoadedCalls(t.scale);
  }

  lemma BoundRest(c: Config, n: nat, s: State, i: nat)
    requires CountInv(c, s.pool, s.scale) && BoundInv(c, n, s)
    requires i < |s.scale| && !s.scale[i].AtAdd? && ScaleStep(c, s, i).Some?
    ensures BoundInv(c, n, ScaleStep(c, s, i).value)
  {
    var t := ScaleStep(c, s, i).value;
    SlotSums(s.scale, i, t.scale[i]);
    SumAppend(Live, s.pool.workers, Select(false));
    LoadedCalls(s.scale);
  }

  lemma BoundScale(c: Config, n: nat, s: State, i: nat)
    requires Inv(c, s) && BoundInv(c, n, s) && i < |s.scale| && ScaleStep(c, s, i).Some?
    ensures BoundInv(c, n, ScaleStep(c, s, i).value)
  {
    hide Intake.Inv, CallInv, FloorInv;
    if s.scale[i].AtAdd? {
      BoundAdd(c, n, s, i);
    } else {
      BoundRest(c, n, s, i);
    }
  }

  /** What a step of worker j touches, and when it lowers the counter. */
  lemma WorkMoves(c: Config, s: State, j: nat, op: WorkerOp)
    requires j < |s.pool.workers| && WorkStep(c, s, j, op).Some?
    ensures var t := WorkStep(c, s, j, op).value;
      && t.scale == s.scale && t.intake.gate.cancelled == s.intake.gate.cancelled
      && |t.pool.workers| == |s.pool.workers| && t.pool.workers == s.pool.workers[j := t.pool.workers[j]]
      && var w := s.pool.workers[j];
         t.pool.counter - s.pool.counter == Live(t.pool.workers[j]) - Live(w)
         && (t.pool.counter == s.pool.counter
             || (t.pool.counter == s.pool.counter - 1 && (w.AtDec? || (w.ReapCas? && w.cur == s.pool.counter))))
  {
    if op.TakeJob? && s.pool.workers[j].Select? {
      hide TakeStep;
    }
  }

  /**
    A worker leaves the counter and the live workers alone or lowers both, above the minimum while
    nothing is cancelled.
   */
  lemma WorkCounts(c: Config, s: State, j: nat, op: WorkerOp)
    requires Inv(c, s) && j < |s.pool.workers| && WorkStep(c, s, j, op).Some?
    ensures var t := WorkStep(c, s, j, op).value;
      && t.scale == s.scale && t.intake.gate.cancelled == s.intake.gate.cancelled
      && t.pool.counter - s.pool.counter == Sum(Live, t.pool.workers) - Sum(Live, s.pool.workers)
      && (t.pool.counter == s.pool.counter
          || (t.pool.counter == s.pool.counter - 1 && (!s.intake.gate.cancelled ==> s.pool.counter > c.min)))
  {
    Intake.CloseOrder(s.intake);
    WorkMoves(c, s, j, op);
    WorkerSums(s.pool.workers, j, WorkStep(c, s, j, op).value.pool.workers[j]);
    hide Intake.Inv, CallInv, CountInv, WorkStep;
  }

  lemma BoundWork(c: Config, n: nat, s: State, j: nat, op: WorkerOp)
    requires Inv(c, s) && BoundInv(c, n, s) && j < |s.pool.workers| && WorkStep(c, s, j, op).Some?
    ensures BoundInv(c, n, WorkStep(c, s, j, op).value)
  {
    WorkCounts(c, s, j, op);
    hide Intake.Inv, CallInv, FloorInv, WorkStep;
  }

  lemma BoundMeet(c: Config, n: nat, s: State, i: nat, j: nat)
    requires Inv(c, s) && BoundInv(c, n, s) && MeetStep(c, s, i, j).Some? && Calls(MeetStep(c, s, i, j).value) <= n
    ensures BoundInv(c, n, MeetStep(c, s, i, j).value)
  {
    hide Intake.Inv, CountInv, FloorInv, Intake.Step;
    Intake.StepFrame(c.Front(), s.intake, Intake.Submit(i, Intake.Meet));
    SlotSums(s.scale, i, AtLoad);
    WorkerSums(s.pool.workers, j, Busy(s.intake.subs[i].job));
  }

  lemma BoundCall(c: Config, n: nat, s: State, a: Intake.Action)
    requires Inv(c, s) && BoundInv(c, n, s) && AdmissionStep(c, s, a).Some? && Calls(AdmissionStep(c, s, a).value) <= n
    ensures BoundInv(c, n, AdmissionStep(c, s, a).value)
  {
    hide Intake.Inv, CountInv, FloorInv, Intake.Step;
    Intake.StepFrame(c.Front(), s.intake, a);
    if a.Submit? {
      SlotSums(s.scale, a.i, AtLoad);
      SlotSums(s.scale, a.i, Off);
    }
  }

  /** A submitter enters or leaves maybeScaleUp, and a worker may take its job directly. */
  lemma BoundAdmission(c: Config, n: nat, s: State, a: Action)
    requires Inv(c, s) && BoundInv(c, n, s) && Step(c, s, a).Some? && Calls(Step(c, s, a).value) <= n
    requires a.Admission? || a.Meet?
    ensures BoundInv(c, n, Step(c, s, a).value)
  {
    hide Inv, BoundInv, Intake.Step, ScaleStep, WorkStep;
    if a.Meet? { BoundMeet(c, n, s, a.i, a.j); } else { BoundCall(c, n, s, a.a); }
  }

  lemma BoundStep(c: Config, n: nat, s: State, a: Action)
    requires Inv(c, s) && BoundInv(c, n, s) && Step(c, s, a).Some? && Calls(Step(c, s, a).value) <= n
    ensures BoundInv(c, n, Step(c, s, a).value)
  {
    hide Inv, BoundInv, ScaleStep, WorkStep, AdmissionStep, MeetStep;
    match a
    case ScaleGo(i) => BoundScale(c, n, s, i);
    case Work(j, op) => BoundWork(c, n, s, j, op);
    case _ => BoundAdmission(c, n, s, a);
  }

  lemma InitBounds(c: Config, n: nat, subs: nat, closers: nat)
    requires c.Valid() && n >= 1
    ensures Inv(c, Init(c, subs, closers)) && BoundInv(c, n, Init(c, subs, closers))
  {
    var s := Init(c, subs, closers);
    Intake.InitInv(c.Front(), subs, closers);
    hide Intake.Inv;
    SumConstant(Live, s.pool.workers, 1);
    SumConstant(Present, s.pool.workers, 1);
    SumConstant(InFlight, s.scale, 0);
    SumConstant(Spawning, s.scale, 0);
    SumConstant(Announced, s.scale, 0);
    SumConstant(Owing, s.scale, 0);
    SumConstant(Loaded, s.scale, 0);
  }

  lemma ReachableInv(c: Config, subs: nat, closers: nat, s: State)
    requires c.Valid() && Reaches(Steps(c), Init(c, subs, closers), s)
    ensures Inv(c, s)
  {
    var inv := (x: State) => Inv(c, x);
    forall x, a | inv(x) && Steps(c)(x, a).Some?
      ensures inv(Steps(c)(x, a).value)
    {
      InvStep(c, x, a);
    }
    InitBounds(c, 1, subs, closers);
    ReachesInductive(Steps(c), inv, Init(c, subs, closers), s);
  }

  /** What the invariants say about the numbers of workers. */
  ghost predicate Bounds(c: Config, n: nat, s: State) {
    && s.pool.counter == Registered(s) + Undos(s)
    && Undos(s) <= n - 1
    && Registered(s) <= c.max
    && Sum(Working, s.pool.workers) <= c.max
    && s.pool.counter <= c.max + (n - 1)
    && (!s.intake.gate.cancelled ==> Registered(s) >= c.min - (n - 1))
  }

  lemma InvBounds(c: Config, n: nat, s: State)
    requires n >= 1 && Inv(c, s) && BoundInv(c, n, s)
    ensures Bounds(c, n, s)
  {
    SumMonotone(Working, Live, s.pool.workers);
  }

  /** In every run with at most n calls of maybeScaleUp in flight at once. */
  lemma BoundsHold(c: Config, n: nat, subs: nat, closers: nat, s: State)
    requires c.Valid() && n >= 1 && Reaches(BoundedSteps(c, n), Init(c, subs, closers), s)
    ensures Bounds(c, n, s)
  {
    var inv := (x: State) => Inv(c, x) && BoundInv(c, n, x);
    forall x, a | inv(x) && BoundedSteps(c, n)(x, a).Some?
      ensures inv(BoundedSteps(c, n)(x, a).value)
    {
      InvStep(c, x, a);
      BoundStep(c, n, x, a);
    }
    InitBounds(c, n, subs, closers);
    ReachesInductive(BoundedSteps(c, n), inv, Init(c, subs, closers), s);
    InvBounds(c, n, s);
  }

  /** Every call in flight belongs to a submitter of its own. */
  lemma CallsAtMostSubmitters(s: State)
    ensures Calls(s) <= |s.scale|
  {
    SumAtMost(InFlight, s.scale, 1);
  }

  lemma ScaleLength(c: Config, s: State, a: Action)
    requires Step(c, s, a).Some?
    ensures |Step(c, s, a).value.scale| == |s.scale|
  {
  }

  /** In every run at all: n submitting goroutines make at most n calls at once. */
  lemma SubmitterBoundsHold(c: Config, n: nat, subs: nat, closers: nat, s: State)
    requires c.Valid() && n >= 1 && subs <= n && Reaches(Steps(c), Init(c, subs, closers), s)
    ensures Bounds(c, n, s)
  {
    var inv := (x: State) => Inv(c, x) && BoundInv(c, n, x) && |x.scale| == subs;
    forall x, a | inv(x) && Steps(c)(x, a).Some?
      ensures inv(Steps(c)(x, a).value)
    {
      var y := Step(c, x, a).value;
      InvStep(c, x, a);
      ScaleLength(c, x, a);
      CallsAtMostSubmitters(y);
      BoundStep(c, n, x, a);
    }
    InitBounds(c, n, subs, closers);
    ReachesInductive(Steps(c), inv, Init(c, subs, closers), s);
    InvBounds(c, n, s);
  }

  // ---- only TrySubmit: mu serialises the calls ----

  predicate TryOnly(pc: Intake.Sub) {
    match pc
    case Idle => true
    case Sent(_) => false
    case Retry(_) => false
    case FirstCheck(k, _) => k.TrySubmit?
    case WantLock(k, _) => k.TrySubmit?
    case Recheck(k, _) => k.TrySubmit?
    case Sending(k, _) => k.TrySubmit?
    case Post(k, _) => k.TrySubmit?
    case Release(k, _, _) => k.TrySubmit?
  }

  ghost predicate AllTry(subs: seq<Intake.Sub>) {
    forall i :: 0 <= i < |subs| ==> TryOnly(subs[i])
  }

  lemma TryOnlyStep(c: Intake.Config, s: Intake.State, i: nat, op: Intake.Op)
    requires i < |s.subs| && TryOnly(s.subs[i]) && Intake.SubStep(c, s, i, op).Some?
    requires op != Intake.Begin(Intake.SubmitWithContext)
    ensures TryOnly(Intake.SubStep(c, s, i, op).value.subs[i])
  {
  }

  lemma OneTry(c: Config, s: Intake.State, i: nat, op: Intake.Op)
    requires AllTry(s.subs) && i < |s.subs| && Intake.SubStep(c.Front(), s, i, op).Some?
    requires op != Intake.Begin(Intake.SubmitWithContext)
    ensures |Intake.SubStep(c.Front(), s, i, op).value.subs| == |s.subs|
    ensures AllTry(s.subs[i := Intake.SubStep(c.Front(), s, i, op).value.subs[i]])
  {
    TryOnlyStep(c.Front(), s, i, op);
    hide TryOnly;
    Intake.StepFrame(c.Front(), s.(panicked := false), Intake.Submit(i, op));
  }

  lemma AllTryStep(c: Config, s: State, a: Action)
    requires AllTry(s.intake.subs) && TrySubmitSteps(c)(s, a).Some?
    ensures AllTry(Step(c, s, a).value.intake.subs)
  {
    hide Intake.SubStep, AllTry;
    var t := Step(c, s, a).value.intake;
    if (a.Admission? && a.a.Submit?) || a.Meet? {
      var b := if a.Meet? then Intake.Submit(a.i, Intake.Meet) else a.a;
      Intake.StepFrame(c.Front(), s.intake, b);
      OneTry(c, s.intake, b.i, b.op);
    } else if a.Admission? {
      Intake.StepFrame(c.Front(), s.intake, a.a);
    } else if a.Work? && a.op.TakeJob? {
      Intake.StepFrame(c.Front(), s.intake, Intake.Take);
    }
  }

  /** Two calls in flight would both hold mu. */
  lemma {:induction false} OneCall(s: State)
    requires Intake.SafeInv(s.intake) && CallInv(s.intake.subs, s.scale) && AllTry(s.intake.subs)
    ensures Calls(s) <= 1
  {
    if i: nat :| i < |s.scale| && !s.scale[i].Off? {
      var rest := s.scale[i := Off];
      SumUpdate(InFlight, s.scale, i, Off);
      SumZero(InFlight, rest);
    } else {
      SumZero(InFlight, s.scale);
    }
  }

  /** With TrySubmit alone there are never fewer than min workers before the context is cancelled. */
  lemma TrySubmitBoundsHold(c: Config, subs: nat, closers: nat, s: State)
    requires c.Valid() && Reaches(TrySubmitSteps(c), Init(c, subs, closers), s)
    ensures Bounds(c, 1, s)
  {
    var inv := (x: State) => Inv(c, x) && BoundInv(c, 1, x) && AllTry(x.intake.subs);
    forall x, a | inv(x) && TrySubmitSteps(c)(x, a).Some?
      ensures inv(TrySubmitSteps(c)(x, a).value)
    {
      InvStep(c, x, a);
      AllTryStep(c, x, a);
      OneCall(Step(c, x, a).value);
      BoundStep(c, 1, x, a);
    }
    InitBounds(c, 1, subs, closers);
    ReachesInductive(TrySubmitSteps(c), inv, Init(c, subs, closers), s);
    InvBounds(c, 1, s);
  }
}
