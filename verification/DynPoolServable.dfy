/**
  Which backlogs of an open dynamic pool can still be served. A worker comes
  back as long as some call is, or can get, past its send: another
  SubmitWithContext does it while there is room in the queue. Without a worker
  and with the queue full no call gets as far as maybeScaleUp, and no job is
  ever run or accepted again.
 */
module DynPoolServable {
  import opened Options
  import opened Runs
  import opened Sums
  import Intake
  import IntakeCalls
  import opened DynPool
  import opened DynPoolBounds
  import opened DynPoolExact
  import opened DynPoolShutdown
  import opened DynPoolProgress
  import DynPoolJobs

  /** A call that may still start a worker. */
  predicate Early(x: Scale) { x.AtLoad? || x.AtLen? || x.AtAdd? }

  /** No worker, no room in the queue, and no call that has sent its job and may still start one. */
  ghost predicate Stuck(c: Config, s: State) {
    && Registered(s) == 0 && c.cap > 0 && |s.intake.jobs.queue| == c.cap
    && (forall i :: 0 <= i < |s.intake.subs| ==> !s.intake.subs[i].Sent?)
    && (forall i :: 0 <= i < |s.scale| ==> !Early(s.scale[i]))
  }

  /** Some continuation takes another job. */
  ghost predicate Servable(c: Config, s: State) {
    exists t :: Reaches(Steps(c), s, t) && |t.intake.jobs.taken| > |s.intake.jobs.taken|
  }

  // ---- stuck: nothing happens any more ----

  /** With the queue full no call gets past its send. */
  lemma FullRefuses(c: Intake.Config, s: Intake.State, a: Intake.Action)
    requires c.cap > 0 && |s.jobs.queue| == c.cap && Intake.Step(c, s, a).Some? && !a.Take?
    requires forall i :: 0 <= i < |s.subs| ==> !s.subs[i].Sent?
    ensures var t := Intake.Step(c, s, a).value;
      && (t.jobs.queue, t.jobs.taken, t.jobs.accepted) == (s.jobs.queue, s.jobs.taken, s.jobs.accepted)
      && |t.subs| == |s.subs| && forall i :: 0 <= i < |t.subs| ==> !t.subs[i].Sent? && (t.subs[i].Post? ==> s.subs[i].Post?)
  {
  }

  lemma StuckAdmission(c: Config, s: State, a: Intake.Action)
    requires Inv(c, s) && Stuck(c, s) && AdmissionStep(c, s, a).Some?
    ensures var t := AdmissionStep(c, s, a).value; var m, m' := s.intake.jobs, t.intake.jobs;
      Stuck(c, t) && m'.taken == m.taken && m'.accepted == m.accepted
  {
    FullRefuses(c.Front(), s.intake, a);
    hide Inv, Intake.Step;
    if a.Submit? && a.i < |s.scale| { SlotSums(s.scale, a.i, Off); }
  }

  lemma StuckScale(c: Config, s: State, i: nat)
    requires Stuck(c, s) && i < |s.scale| && ScaleStep(c, s, i).Some?
    ensures var t := ScaleStep(c, s, i).value; Stuck(c, t) && t.intake == s.intake
  {
    SumZero(Spawning, s.scale);
    SlotSums(s.scale, i, AtEnd);
  }

  lemma StuckWork(c: Config, s: State, j: nat, op: WorkerOp)
    requires Stuck(c, s) && j < |s.pool.workers| && WorkStep(c, s, j, op).Some?
    ensures var t := WorkStep(c, s, j, op).value; Stuck(c, t) && t.intake == s.intake
  {
    SumZero(Live, s.pool.workers);
    WorkerSums(s.pool.workers, j, Gone);
  }

  lemma StuckStep(c: Config, s: State, a: Action)
    requires Inv(c, s) && Stuck(c, s) && Step(c, s, a).Some?
    ensures var t := Step(c, s, a).value; var m, m' := s.intake.jobs, t.intake.jobs;
      Inv(c, t) && Stuck(c, t) && m'.taken == m.taken && m'.accepted == m.accepted
  {
    InvStep(c, s, a);
    hide Inv, AdmissionStep, ScaleStep, WorkStep;
    match a
    case Admission(b) => StuckAdmission(c, s, b);
    case Meet(i, j) =>
    case ScaleGo(i) => StuckScale(c, s, i);
    case Work(j, op) => StuckWork(c, s, j, op);
  }

  /** In every continuation, by any callers, no job is taken and none is accepted. */
  lemma StuckForever(c: Config, s: State, t: State)
    requires Inv(c, s) && Stuck(c, s) && Reaches(Steps(c), s, t)
    ensures Stuck(c, t)
    ensures t.intake.jobs.taken == s.intake.jobs.taken && t.intake.jobs.accepted == s.intake.jobs.accepted
  {
    var m := s.intake.jobs;
    var inv := (x: State) =>
      Inv(c, x) && Stuck(c, x) && x.intake.jobs.taken == m.taken && x.intake.jobs.accepted == m.accepted;
    forall x, a | inv(x) && Steps(c)(x, a).Some?
      ensures inv(Steps(c)(x, a).value)
    {
      StuckStep(c, x, a);
    }
    ReachesInductive(Steps(c), inv, s, t);
  }

  // ---- a registered worker, and no undo to come ----

  /** An open pool with a backlog, and no undo owed. */
  ghost predicate Settled(c: Config, s: State) {
    Inv(c, s) && !s.intake.gate.closedCh && s.intake.jobs.queue != [] && Undos(s) == 0
  }

  lemma OpenFacts(c: Config, s: State)
    requires Inv(c, s) && !s.intake.gate.closedCh
    ensures !s.intake.panicked && !s.intake.gate.cancelled && !s.intake.gate.queueClosed && !s.intake.gate.mu.Closing?
    ensures |s.scale| == |s.intake.subs| && s.pool.counter == Registered(s) + Undos(s)
    ensures s.intake.gate.mu.Submitter? ==> s.intake.gate.mu.i < |s.intake.subs|
    ensures forall i :: 0 <= i < |s.intake.subs| ==>
      (s.scale[i].Off? <==> !s.intake.subs[i].Post?)
      && (s.intake.subs[i].HoldsLock() <==> s.intake.gate.mu == Intake.Submitter(i))
  {
    assert Intake.SafeInv(s.intake);
    Intake.CloseOrder(s.intake);
    hide FloorInv, Intake.Inv;
  }

  /** A step of the pool takes a job, or leaves the queue and brings rest nearer. */
  lemma InternalStep(c: Config, s: State, a: Action)
    requires Internal(a) && Step(c, s, a).Some?
    ensures var t := Step(c, s, a).value;
      && t.intake.gate == s.intake.gate && Potential(t) < Potential(s)
      && (t.intake.jobs == s.intake.jobs || |t.intake.jobs.taken| > |s.intake.jobs.taken|)
  {
    hide Potential;
    match a
    case ScaleGo(i) => ScaleDecreases(c, s, i);
    case Work(j, op) => WorkDecreases(c, s, j, op); WorkGate(c, s, j, op);
  }

  /** Registered workers only leave from above the minimum. */
  lemma RegisteredStays(c: Config, s: State, a: Action)
    requires c.Valid() && Settled(c, s) && Registered(s) > 0 && MovesRegistered(c, s, a)
    ensures var t := Step(c, s, a).value; Inv(c, t) && Undos(t) == 0 && Registered(t) > 0
  {
    var t := Step(c, s, a).value;
    InvStep(c, s, a);
    OpenFacts(c, s);
    assert CountInv(c, t.pool, t.scale);
    hide Intake.Inv, CallInv, FloorInv, WorkStep;
    match a
    case Work(j, op) => WorkCounts(c, s, j, op);
    case ScaleGo(i) => SlotSums(s.scale, i, t.scale[i]);
  }

  /** Their own steps then get to the backlog. */
  lemma {:induction false} RegisteredServes(c: Config, s0: State, s: State) returns (t: State)
    requires c.Valid() && Reaches(Steps(c), s0, s) && Settled(c, s) && Registered(s) > 0
    ensures Reaches(Steps(c), s0, t) && |t.intake.jobs.taken| > |s.intake.jobs.taken|
    decreases Potential(s)
  {
    OpenFacts(c, s);
    hide Step, Potential, Inv;
    var a := RegisteredMoves(c, s);
    InternalStep(c, s, a);
    RegisteredStays(c, s, a);
    t := Do(Steps(c), s0, s, a);
    if |t.intake.jobs.taken| <= |s.intake.jobs.taken| { t := RegisteredServes(c, s0, t); }
  }

  // ---- no worker, but a call that starts one ----

  /** Its tests succeed, and it adds to a counter that is zero. */
  lemma SlotNears(c: Config, s: State, i: nat)
    requires c.Valid() && Settled(c, s) && Registered(s) == 0 && i < |s.scale| && Early(s.scale[i])
    ensures Step(c, s, ScaleGo(i)).Some?
    ensures var t := Step(c, s, ScaleGo(i)).value;
      && Settled(c, t) && t.intake == s.intake && |t.scale| == |s.scale|
      && (if s.scale[i].AtAdd? then Registered(t) == 1
          else Registered(t) == 0 && Early(t.scale[i]) && ScaleRank(t.scale[i]) < ScaleRank(s.scale[i]))
  {
    OpenFacts(c, s);
    InvStep(c, s, ScaleGo(i));
    hide Inv;
    SlotSums(s.scale, i, Step(c, s, ScaleGo(i)).value.scale[i]);
  }

  lemma {:induction false} SlotServes(c: Config, s0: State, s: State, i: nat) returns (t: State)
    requires c.Valid() && Reaches(Steps(c), s0, s) && Settled(c, s) && Registered(s) == 0
    requires i < |s.scale| && Early(s.scale[i])
    ensures Reaches(Steps(c), s0, t) && |t.intake.jobs.taken| > |s.intake.jobs.taken|
    decreases ScaleRank(s.scale[i])
  {
    SlotNears(c, s, i);
    hide Step, Settled, Registered;
    t := Do(Steps(c), s0, s, ScaleGo(i));
    if s.scale[i].AtAdd? { t := RegisteredServes(c, s0, t); } else { t := SlotServes(c, s0, t, i); }
  }

  /** The unlock and the call that follows. */
  lemma SentServes(c: Config, s0: State, s: State, i: nat) returns (t: State)
    requires c.Valid() && Reaches(Steps(c), s0, s) && Settled(c, s) && Registered(s) == 0
    requires i < |s.intake.subs| && s.intake.subs[i].Sent?
    ensures Reaches(Steps(c), s0, t) && |t.intake.jobs.taken| > |s.intake.jobs.taken|
  {
    OpenFacts(c, s);
    var a := Admission(Intake.Submit(i, Intake.Go));
    InvStep(c, s, a);
    hide Inv;
    t := Do(Steps(c), s0, s, a);
    SlotSums(s.scale, i, AtLoad);
    t := SlotServes(c, s0, t, i);
  }

  // ---- no worker and no such call, but room in the queue ----

  /** The same move in the pool; a call that cannot start a worker leaves maybeScaleUp. */
  lemma CallerNears(c: Config, s: State, i: nat)
    requires Settled(c, s) && Registered(s) == 0 && |s.intake.jobs.queue| < c.cap && i < |s.intake.subs|
    requires s.intake.gate.mu.Free? || s.intake.gate.mu == Intake.Submitter(i)
    requires !s.intake.subs[i].Sent? && i < |s.scale| && !Early(s.scale[i])
    ensures var a := Intake.Submit(i, IntakeCalls.Onward(s.intake.subs[i]));
      && Intake.Step(c.Front(), s.intake, a).Some? && Step(c, s, Admission(a)).Some?
      && var t := Step(c, s, Admission(a)).value;
         && t.intake == Intake.Step(c.Front(), s.intake, a).value && t.pool == s.pool && |t.scale| == |s.scale|
         && t.scale == (if t.intake.subs[i].Post? then s.scale[i := AtLoad]
                        else if s.intake.subs[i].Post? then s.scale[i := Off] else s.scale)
  {
    OpenFacts(c, s);
    SumZero(Spawning, s.scale);
    SumZero(Owing, s.scale);
    IntakeCalls.SubmitterNears(c.Front(), s.intake, i);
    Intake.StepFrame(c.Front(), s.intake, Intake.Submit(i, IntakeCalls.Onward(s.intake.subs[i])));
    hide Intake.Step, Inv;
  }

  lemma {:induction false} RoomServes(c: Config, s0: State, s: State, i: nat) returns (t: State)
    requires c.Valid() && Reaches(Steps(c), s0, s) && Settled(c, s) && Registered(s) == 0
    requires |s.intake.jobs.queue| < c.cap && i < |s.intake.subs| && i < |s.scale|
    requires s.intake.gate.mu.Free? || s.intake.gate.mu == Intake.Submitter(i)
    requires !s.intake.subs[i].Sent? && !Early(s.scale[i])
    ensures Reaches(Steps(c), s0, t) && |t.intake.jobs.taken| > |s.intake.jobs.taken|
    decreases IntakeCalls.Way(s.intake.subs[i])
  {
    OpenFacts(c, s);
    IntakeCalls.SubmitterNears(c.Front(), s.intake, i);
    CallerNears(c, s, i);
    var a := Admission(Intake.Submit(i, IntakeCalls.Onward(s.intake.subs[i])));
    InvStep(c, s, a);
    hide Inv, Step, Intake.Step;
    t := Do(Steps(c), s0, s, a);
    SlotSums(s.scale, i, t.scale[i]);
    OpenFacts(c, t);
    if t.intake.subs[i].Sent? {
      t := SentServes(c, s0, t, i);
    } else if t.intake.subs[i].Post? {
      t := SlotServes(c, s0, t, i);
    } else {
      t := RoomServes(c, s0, t, i);
    }
  }

  // ---- the exact statement ----

  /** One undo is paid. */
  lemma PayOne(c: Config, s: State, i: nat)
    requires Inv(c, s) && !s.intake.gate.closedCh && i < |s.scale| && s.scale[i].AtUndo?
    ensures var t := s.(pool := s.pool.(counter := s.pool.counter - 1), scale := s.scale[i := AtEnd]);
      Step(c, s, ScaleGo(i)) == Some(t) && Inv(c, t) && Undos(t) == Undos(s) - 1 && Registered(t) == Registered(s)
  {
    hide Inv;
    OpenFacts(c, s);
    InvStep(c, s, ScaleGo(i));
    SlotSums(s.scale, i, AtEnd);
  }

  lemma {:induction false} PayAll(c: Config, s0: State, s: State) returns (t: State)
    requires Reaches(Steps(c), s0, s) && Inv(c, s) && !s.intake.gate.closedCh
    ensures Reaches(Steps(c), s0, t) && Inv(c, t) && t.intake == s.intake && Undos(t) == 0 && Registered(t) == Registered(s)
    ensures |t.scale| == |s.scale| && forall i :: 0 <= i < |s.scale| && !s.scale[i].AtUndo? ==> t.scale[i] == s.scale[i]
    decreases Undos(s)
  {
    hide Inv, Registered, Step;
    t := s;
    SumZero(Owing, s.scale);
    if Undos(s) > 0 {
      var i :| 0 <= i < |s.scale| && Owing(s.scale[i]) != 0;
      PayOne(c, s, i);
      t := Do(Steps(c), s0, s, ScaleGo(i));
      t := PayAll(c, s0, t);
    }
  }

  lemma SlotsKept(c: Config, subs: nat, closers: nat, s: State)
    requires Reaches(Steps(c), Init(c, subs, closers), s)
    ensures |s.scale| == subs
  {
    var inv := (x: State) => |x.scale| == subs;
    forall x, a | inv(x) && Steps(c)(x, a).Some?
      ensures inv(Steps(c)(x, a).value)
    {
      ScaleLength(c, x, a);
    }
    ReachesInductive(Steps(c), inv, Init(c, subs, closers), s);
  }

  lemma NotStuckServes(c: Config, s0: State, s: State) returns (t: State)
    requires c.Valid() && Reaches(Steps(c), s0, s) && Settled(c, s) && |s.scale| > 0 && !Stuck(c, s)
    ensures Reaches(Steps(c), s0, t) && |t.intake.jobs.taken| > |s.intake.jobs.taken|
  {
    OpenFacts(c, s);
    assert |s.intake.jobs.queue| <= c.cap;
    hide Inv;
    if Registered(s) > 0 {
      t := RegisteredServes(c, s0, s);
    } else if i: nat :| i < |s.scale| && Early(s.scale[i]) {
      t := SlotServes(c, s0, s, i);
    } else if i: nat :| i < |s.intake.subs| && s.intake.subs[i].Sent? {
      t := SentServes(c, s0, s, i);
    } else {
      t := RoomServes(c, s0, s, if s.intake.gate.mu.Submitter? then s.intake.gate.mu.i else 0);
    }
  }

  /**
    In every reachable state of an open pool, with any calls in progress: some continuation takes a job
    of the backlog exactly when the pool is not stuck.
   */
  lemma ServableExactly(c: Config, subs: nat, closers: nat, s: State)
    requires c.Valid() && Reaches(Steps(c), Init(c, subs, closers), s)
    requires !s.intake.gate.closedCh && s.intake.jobs.queue != []
    ensures Servable(c, s) <==> !Stuck(c, s)
  {
    ReachableInv(c, subs, closers, s);
    hide Inv;
    if Stuck(c, s) {
      forall t | Reaches(Steps(c), s, t)
        ensures |t.intake.jobs.taken| <= |s.intake.jobs.taken|
      {
        StuckForever(c, s, t);
      }
    } else {
      SlotsKept(c, subs, closers, s);
      if subs == 0 { DynPoolJobs.NothingQueued(c, closers, s); }
      ReachesRefl(Steps(c), s);
      var t := PayAll(c, s, s);
      t := NotStuckServes(c, s, t);
    }
  }

  /** From every open state with a backlog. */
  ghost predicate AlwaysServable(c: Config, subs: nat, closers: nat) {
    forall s :: Reaches(Steps(c), Init(c, subs, closers), s) && !s.intake.gate.closedCh && s.intake.jobs.queue != []
      ==> Servable(c, s)
  }

  /** An open pool with nobody in a call and no worker is stuck when its queue is full. */
  lemma StrandedStuck(c: Config, s: State)
    requires Inv(c, s) && Stranded(s)
    ensures Stuck(c, s) <==> |s.intake.jobs.queue| == c.cap
  {
    OpenFacts(c, s);
    hide Inv;
    SumZero(Live, s.pool.workers);
    SumZero(Spawning, s.scale);
  }

  /**
    Every backlog of an open pool can still be served exactly when at most min goroutines submit or the
    pool cannot scale.
   */
  lemma AlwaysServableExactly(c: Config, subs: nat, closers: nat)
    requires c.Valid()
    ensures AlwaysServable(c, subs, closers) <==> subs <= c.min || c.cap == 0 || c.min == c.max
  {
    if subs <= c.min || c.cap == 0 || c.min == c.max {
      forall s | Reaches(Steps(c), Init(c, subs, closers), s) && !s.intake.gate.closedCh && s.intake.jobs.queue != []
        ensures Servable(c, s)
      {
        OpenNotCancelled(c, subs, closers, s);
        GuaranteeIsExact(c, subs, closers, Guaranteed(c, subs));
        ServableExactly(c, subs, closers, s);
      }
    } else {
      var s := DeadReached(c, subs, closers);
      ReachableInv(c, subs, closers, s);
      StrandedStuck(c, s);
      ServableExactly(c, subs, closers, s);
    }
  }

  /** So a pool without workers, and with nobody in a call, revives exactly while there is room. */
  lemma StrandedExactly(c: Config, subs: nat, closers: nat, s: State)
    requires c.Valid() && Reaches(Steps(c), Init(c, subs, closers), s) && Stranded(s)
    ensures Servable(c, s) <==> |s.intake.jobs.queue| < c.cap
  {
    ReachableInv(c, subs, closers, s);
    StrandedStuck(c, s);
    ServableExactly(c, subs, closers, s);
    assert |s.intake.jobs.queue| <= c.cap;
    hide Inv;
  }
}
