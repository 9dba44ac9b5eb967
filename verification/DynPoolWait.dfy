/**
  After Close and Wait of the dynamic pool: exactly when a worker can still appear.
 */
module DynPoolWait {
  import opened Runs
  import opened Sums
  import Intake
  import opened DynPool
  import DynPoolCalls
  import opened DynPoolBounds
  import opened DynPoolExact
  import opened DynPoolShutdown

  // ---- after Wait ----

  /** A call left inside maybeScaleUp that can still get to start a worker. */
  predicate MaySpawn(s: State, x: Scale) {
    x.AtAdd? || x.AtWg? || x.AtGo? || ((x.AtLoad? || x.AtLen?) && s.intake.jobs.queue != [])
  }

  ghost predicate SpawnPending(s: State) {
    exists i :: 0 <= i < |s.scale| && MaySpawn(s, s.scale[i])
  }

  /** No worker exists in any continuation. */
  ghost predicate StaysGone(c: Config, s: State) {
    forall t :: Reaches(Steps(c), s, t) ==> AllGone(t)
  }

  lemma GoneScale(c: Config, s: State, i: nat)
    requires AllGone(s) && !SpawnPending(s) && i < |s.scale| && ScaleStep(c, s, i).Some?
    ensures var t := ScaleStep(c, s, i).value; AllGone(t) && !SpawnPending(t)
  {
    var t := ScaleStep(c, s, i).value;
    assert !MaySpawn(s, s.scale[i]);
    assert forall k :: 0 <= k < |t.scale| && MaySpawn(t, t.scale[k]) ==> MaySpawn(s, s.scale[k]);
  }

  lemma NoNewSpawn(s: State, t: State)
    requires !SpawnPending(s) && |t.scale| == |s.scale| && t.intake.jobs.queue == s.intake.jobs.queue
    requires forall i :: 0 <= i < |s.scale| ==> t.scale[i] == s.scale[i] || (s.scale[i].AtEnd? && t.scale[i].Off?)
    ensures !SpawnPending(t)
  {
    assert forall k :: 0 <= k < |t.scale| && MaySpawn(t, t.scale[k]) ==> MaySpawn(s, s.scale[k]);
  }

  lemma GoneStep(c: Config, s: State, a: Action)
    requires Closed(c, s) && AllGone(s) && !SpawnPending(s) && Step(c, s, a).Some?
    ensures var t := Step(c, s, a).value; Closed(c, t) && AllGone(t) && !SpawnPending(t)
  {
    hide Closed, Potential, Weigh, Intake.Step, ScaleStep, AdmissionStep, MeetStep;
    assert !a.Work?;
    ClosedStep(c, s, a);
    if a.ScaleGo? {
      GoneScale(c, s, a.i);
    } else {
      ClosedAdmission(c, s, a);
      NoNewSpawn(s, Step(c, s, a).value);
    }
  }

  // ---- the pending call can really start a worker ----

  lemma StartWorker(c: Config, s0: State, s: State, i: nat) returns (t: State)
    requires Reaches(Steps(c), s0, s) && !s.intake.panicked && i < |s.scale| && (s.scale[i].AtWg? || s.scale[i].AtGo?)
    ensures Reaches(Steps(c), s0, t) && !AllGone(t)
  {
    t := s;
    if s.scale[i].AtWg? {
      t := Do(Steps(c), s0, t, ScaleGo(i));
    }
    t := Do(Steps(c), s0, t, ScaleGo(i));
    assert t.pool.workers[|s.pool.workers|] == Select(false);
  }

  lemma CountIn(c: Config, s0: State, s: State, i: nat) returns (t: State)
    requires c.Valid() && Reaches(Steps(c), s0, s) && !s.intake.panicked && i < |s.scale| && MaySpawn(s, s.scale[i])
    requires s.pool.counter == 0 && !s.scale[i].AtWg? && !s.scale[i].AtGo?
    ensures Reaches(Steps(c), s0, t) && !t.intake.panicked && |t.scale| == |s.scale| && t.scale[i].AtWg?
  {
    t := s;
    if t.scale[i].AtLoad? {
      t := Do(Steps(c), s0, t, ScaleGo(i));
    }
    if t.scale[i].AtLen? {
      t := Do(Steps(c), s0, t, ScaleGo(i));
    }
    t := Do(Steps(c), s0, t, ScaleGo(i));
  }

  lemma UndoPaid(s: State, i: nat, t: State)
    requires i < |s.scale| && s.scale[i].AtUndo? && SpawnPending(s)
    requires t.scale == s.scale[i := AtEnd] && t.intake == s.intake
    ensures SpawnPending(t) && Undos(t) < Undos(s)
  {
    SumUpdate(Owing, s.scale, i, AtEnd);
    var k :| 0 <= k < |s.scale| && MaySpawn(s, s.scale[k]);
    assert t.scale[k] == s.scale[k];
  }

  lemma PayUndo(c: Config, s0: State, s: State, i: nat) returns (t: State)
    requires Closed(c, s) && AllGone(s) && SpawnPending(s) && Reaches(Steps(c), s0, s) && i < |s.scale| && s.scale[i].AtUndo?
    ensures Closed(c, t) && AllGone(t) && SpawnPending(t) && Reaches(Steps(c), s0, t) && Undos(t) < Undos(s)
  {
    Intake.DoneFacts(s.intake);
    InvStep(c, s, ScaleGo(i));
    hide Inv;
    t := Do(Steps(c), s0, s, ScaleGo(i));
    UndoPaid(s, i, t);
  }

  /** The pending call starts its worker, once the undos still owed are paid. */
  lemma {:induction false} Spawn(c: Config, s0: State, s: State) returns (t: State)
    requires c.Valid() && Closed(c, s) && AllGone(s) && SpawnPending(s) && Reaches(Steps(c), s0, s)
    ensures Reaches(Steps(c), s0, t) && !AllGone(t)
    decreases Undos(s)
  {
    Intake.DoneFacts(s.intake);
    hide Intake.Inv, CallInv, FloorInv;
    SumZero(Live, s.pool.workers);
    if i: nat :| i < |s.scale| && (s.scale[i].AtWg? || s.scale[i].AtGo?) {
      t := StartWorker(c, s0, s, i);
    } else {
      SumZero(Spawning, s.scale);
      SumZero(Owing, s.scale);
      if s.pool.counter == 0 {
        var i: nat :| i < |s.scale| && MaySpawn(s, s.scale[i]);
        t := CountIn(c, s0, s, i);
        t := StartWorker(c, s0, t, i);
      } else {
        var i: nat :| i < |s.scale| && Owing(s.scale[i]) != 0;
        t := PayUndo(c, s0, s, i);
        t := Spawn(c, s0, t);
      }
    }
  }

  lemma WaitReturnsOnlyWhenGone(c: Config, s: State)
    requires Inv(c, s) && s.pool.wg == 0
    ensures AllGone(s)
  {
    hide Intake.Inv, CallInv, FloorInv;
    SumZero(Present, s.pool.workers);
  }

  /** After Close and Wait no worker ever exists again exactly when no call is left that may start one. */
  lemma WaitIsFinalExactly(c: Config, s: State)
    requires c.Valid() && Closed(c, s) && s.pool.wg == 0
    ensures StaysGone(c, s) <==> !SpawnPending(s)
  {
    WaitReturnsOnlyWhenGone(c, s);
    hide Closed;
    if SpawnPending(s) {
      ReachesRefl(Steps(c), s);
      var t := Spawn(c, s, s);
    } else {
      var inv := (x: State) => Closed(c, x) && AllGone(x) && !SpawnPending(x);
      forall x, a | inv(x) && Steps(c)(x, a).Some?
        ensures inv(Steps(c)(x, a).value)
      {
        GoneStep(c, x, a);
      }
      forall t | Reaches(Steps(c), s, t)
        ensures AllGone(t)
      {
        ReachesInductive(Steps(c), inv, s, t);
      }
    }
  }

  // ---- which pools this can happen to ----

  /** Whenever Close has returned and Wait can return, no worker ever exists again. */
  ghost predicate WaitAlwaysFinal(c: Config, subs: nat, closers: nat) {
    forall s :: Reaches(Steps(c), Init(c, subs, closers), s) && s.intake.gate.once.Done? && s.pool.wg == 0
      ==> StaysGone(c, s)
  }

  /** An unbuffered pool never sees a backlog. */
  ghost predicate NoBacklog(s: State) {
    forall i :: 0 <= i < |s.scale| ==> !s.scale[i].AtAdd? && !s.scale[i].AtWg? && !s.scale[i].AtGo?
  }

  lemma WorkScale(c: Config, s: State, j: nat, op: WorkerOp)
    requires j < |s.pool.workers| && WorkStep(c, s, j, op).Some?
    ensures WorkStep(c, s, j, op).value.scale == s.scale
  {
  }

  lemma NoBacklogScale(c: Config, s: State, i: nat)
    requires |s.intake.jobs.queue| == 0 && NoBacklog(s) && i < |s.scale| && ScaleStep(c, s, i).Some?
    ensures NoBacklog(ScaleStep(c, s, i).value)
  {
  }

  lemma NoBacklogStep(c: Config, s: State, a: Action)
    requires c.cap == 0 && Inv(c, s) && NoBacklog(s) && Step(c, s, a).Some?
    ensures NoBacklog(Step(c, s, a).value)
  {
    assert |s.intake.jobs.queue| == 0;
    hide Intake.Inv, CountInv, CallInv, FloorInv, Intake.Step, WorkStep, ScaleStep;
    match a
    case Work(j, op) => WorkScale(c, s, j, op);
    case Admission(b) =>
    case Meet(i, j) =>
    case ScaleGo(i) => NoBacklogScale(c, s, i);
  }

  lemma CounterStays(c: Config, s: State, a: Action)
    requires Step(c, s, a).Some? && forall i :: 0 <= i < |s.scale| ==> !s.scale[i].AtAdd?
    ensures Step(c, s, a).value.pool.counter <= s.pool.counter
  {
    hide Intake.Step;
  }

  /** Nobody is on the way to an add, and the counter has never risen. */
  ghost predicate Low(c: Config, subs: nat, s: State) {
    Inv(c, s) && NoBacklog(s) && |s.scale| == subs && s.pool.counter <= c.min
  }

  lemma LowStep(c: Config, subs: nat, s: State, a: Action)
    requires (c.cap == 0 || subs == 0) && Low(c, subs, s) && Step(c, s, a).Some?
    ensures Low(c, subs, Step(c, s, a).value)
  {
    InvStep(c, s, a);
    ScaleLength(c, s, a);
    CounterStays(c, s, a);
    if c.cap == 0 { NoBacklogStep(c, s, a); }
    hide Inv, Step;
  }

  lemma LowHolds(c: Config, subs: nat, closers: nat, s: State)
    requires c.Valid() && (c.cap == 0 || subs == 0) && Reaches(Steps(c), Init(c, subs, closers), s)
    ensures Low(c, subs, s)
  {
    InitBounds(c, 1, subs, closers);
    var s0 := Init(c, subs, closers);
    assert Low(c, subs, s0);
    hide Low, Step, Init;
    var inv := (x: State) => Low(c, subs, x);
    forall x, a | inv(x) && Steps(c)(x, a).Some?
      ensures inv(Steps(c)(x, a).value)
    {
      LowStep(c, subs, x, a);
    }
    ReachesInductive(Steps(c), inv, s0, s);
  }

  /** Without a queue, or without submitters, no call is ever left that may start a worker. */
  lemma NothingPending(c: Config, subs: nat, closers: nat, s: State)
    requires c.Valid() && (c.cap == 0 || subs == 0) && Reaches(Steps(c), Init(c, subs, closers), s)
    ensures Inv(c, s) && !SpawnPending(s)
  {
    LowHolds(c, subs, closers, s);
  }

  lemma GoneCount(c: Config, subs: nat, closers: nat, s: State)
    requires c.Valid() && Reaches(Steps(c), Init(c, subs, closers), s) && AllGone(s)
    requires forall i :: 0 <= i < |s.scale| ==> !s.scale[i].AtGo?
    ensures Inv(c, s) && s.pool.wg == 0
  {
    ReachableInv(c, subs, closers, s);
    SumZero(Present, s.pool.workers);
    SumZero(Announced, s.scale);
  }

  /** A SubmitWithContext has sent and unlocked when Close comes; the workers leave its job in the queue. */
  lemma PendingReached(c: Config, subs: nat, closers: nat) returns (s: State)
    requires c.Valid() && c.cap > 0 && subs > 0 && closers > 0
    ensures Reaches(Steps(c), Init(c, subs, closers), s) && Closed(c, s) && s.pool.wg == 0 && SpawnPending(s)
  {
    var s0 := Init(c, subs, closers);
    ReachesRefl(Steps(c), s0);
    s := DynPoolCalls.QueuesJob(c, s0, s0, 0);
    var u := CloseAll(c, s0, s);
    assert u.scale[0].AtLoad? && u.intake.jobs.queue != [];
    s := LeaveAll(c, s0, u, 0);
    assert MaySpawn(s, s.scale[0]);
    GoneCount(c, subs, closers, s);
  }

  /** Wait is final in every run exactly for pools without a queue, or that nobody submits to. */
  lemma WaitAlwaysFinalExactly(c: Config, subs: nat, closers: nat)
    requires c.Valid() && closers > 0
    ensures WaitAlwaysFinal(c, subs, closers) <==> c.cap == 0 || subs == 0
  {
    if c.cap == 0 || subs == 0 {
      forall s | Reaches(Steps(c), Init(c, subs, closers), s) && s.intake.gate.once.Done? && s.pool.wg == 0
        ensures StaysGone(c, s)
      {
        NothingPending(c, subs, closers, s);
        WaitIsFinalExactly(c, s);
      }
    } else {
      var s := PendingReached(c, subs, closers);
      WaitIsFinalExactly(c, s);
    }
  }

  /** With TrySubmit alone Wait is always final: a call still scaling would hold mu, which Close has had since. */
  lemma TrySubmitWaitFinal(c: Config, s: State)
    requires c.Valid() && Closed(c, s) && AllTry(s.intake.subs) && s.pool.wg == 0
    ensures StaysGone(c, s)
  {
    Intake.DoneFacts(s.intake);
    forall i | 0 <= i < |s.scale|
      ensures !MaySpawn(s, s.scale[i])
    {
      Intake.SubFacts(s.intake, i);
      assert TryOnly(s.intake.subs[i]);
      hide Intake.Inv, CountInv, FloorInv;
    }
    WaitIsFinalExactly(c, s);
  }
}
