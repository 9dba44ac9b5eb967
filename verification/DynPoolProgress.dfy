/**
  Whether the dynamic pool gets to every accepted job while it is open: it
  comes to rest with an empty queue, unless it can fall to no worker at all.
 */
module DynPoolProgress {
  import opened Runs
  import opened Sums
  import Intake
  import opened DynPool
  import DynPoolCalls
  import opened DynPoolBounds
  import opened DynPoolExact
  import opened DynPoolShutdown
  import DynPoolJobs

  // ---- a worker is left: a backlog is never at rest ----

  /** A registered worker has a step, if there is a job to take: as a goroutine, or in the call that starts it. */
  predicate MovesRegistered(c: Config, s: State, a: Action) {
    && Internal(a) && Step(c, s, a).Some?
    && (a.ScaleGo? ==> a.i < |s.scale| && Spawning(s.scale[a.i]) == 1)
  }

  lemma RegisteredMoves(c: Config, s: State) returns (a: Action)
    requires !s.intake.panicked && s.intake.jobs.queue != [] && Registered(s) > 0
    ensures MovesRegistered(c, s, a)
  {
    SumZero(Live, s.pool.workers);
    SumZero(Spawning, s.scale);
    if Sum(Live, s.pool.workers) > 0 {
      var j :| 0 <= j < |s.pool.workers| && Live(s.pool.workers[j]) != 0;
      a := Work(j, if s.pool.workers[j].Select? then TakeJob else Go);
    } else {
      var i :| 0 <= i < |s.scale| && Spawning(s.scale[i]) != 0;
      a := ScaleGo(i);
    }
  }

  // ---- no worker is left: jobs can be stranded ----

  /** Open, with no call in progress and no worker, and accepted jobs in the queue. */
  ghost predicate Stranded(s: State) {
    && !s.intake.gate.closedCh && s.intake.jobs.queue != []
    && (forall i :: 0 <= i < |s.intake.subs| ==> s.intake.subs[i].Idle?)
    && AllGone(s)
  }

  /** Calls below a have returned, those from a to n - 1 are at the end of maybeScaleUp or still owe an undo. */
  ghost predicate Settling(s: State, a: nat, n: nat) {
    && Quiet(s.intake) && a <= n <= |s.scale| == |s.intake.subs|
    && forall i :: 0 <= i < |s.scale| ==>
         if a <= i < n then
           s.intake.subs[i].Post? && s.intake.subs[i].kind.SubmitWithContext? && (s.scale[i].AtUndo? || s.scale[i].AtEnd?)
         else s.intake.subs[i].Idle? && s.scale[i].Off?
  }

  /** Slot a pays its undo, if it owes one, and its call returns. */
  lemma SettleOne(c: Config, s0: State, s: State, a: nat, n: nat) returns (t: State)
    requires Reaches(Steps(c), s0, s) && Settling(s, a, n) && a < n
    ensures Reaches(Steps(c), s0, t) && Settling(t, a + 1, n)
    ensures t.pool.workers == s.pool.workers && t.intake.jobs.queue == s.intake.jobs.queue
  {
    t := s;
    if s.scale[a].AtUndo? { t := Do(Steps(c), s0, t, ScaleGo(a)); }
    assert t.scale == s.scale[a := AtEnd] && t.intake == s.intake && t.pool.workers == s.pool.workers;
    t := Do(Steps(c), s0, t, Admission(Intake.Submit(a, Intake.Go)));
    assert t.scale == s.scale[a := Off] && t.intake.subs == s.intake.subs[a := Intake.Idle];
  }

  lemma {:induction false} SettleAll(c: Config, s0: State, s: State, a: nat, n: nat) returns (t: State)
    requires Reaches(Steps(c), s0, s) && Settling(s, a, n)
    ensures Reaches(Steps(c), s0, t) && Settling(t, n, n)
    ensures t.pool.workers == s.pool.workers && t.intake.jobs.queue == s.intake.jobs.queue
    decreases n - a
  {
    t := s;
    if a < n {
      t := SettleOne(c, s0, s, a, n);
      t := SettleAll(c, s0, t, a + 1, n);
    }
  }

  /** Submitter 0 is idle, and the counter full. */
  ghost predicate Refilling(c: Config, s: State) {
    && Quiet(s.intake) && 0 < |s.scale| == |s.intake.subs| && s.pool.counter >= c.max
    && s.intake.subs[0].Idle? && s.scale[0].Off?
  }

  /** Submitter 0 makes a whole call, which starts no worker. */
  lemma RefillOne(c: Config, s0: State, s: State) returns (t: State)
    requires Reaches(Steps(c), s0, s) && Refilling(c, s) && |s.intake.jobs.queue| < c.cap
    ensures Reaches(Steps(c), s0, t) && Refilling(c, t) && t.pool == s.pool && t.scale == s.scale
    ensures t.intake.subs == s.intake.subs && |t.intake.jobs.queue| == |s.intake.jobs.queue| + 1
  {
    t := DynPoolCalls.QueuesJob(c, s0, s, 0);
    t := Do(Steps(c), s0, t, ScaleGo(0));
    t := Do(Steps(c), s0, t, Admission(Intake.Submit(0, Intake.Go)));
    assert t.scale == s.scale && t.intake.subs == s.intake.subs;
  }

  lemma {:induction false} RefillAll(c: Config, s0: State, s: State) returns (t: State)
    requires Reaches(Steps(c), s0, s) && Refilling(c, s) && |s.intake.jobs.queue| <= c.cap
    ensures Reaches(Steps(c), s0, t) && Quiet(t.intake) && t.pool == s.pool && t.scale == s.scale
    ensures t.intake.subs == s.intake.subs && |t.intake.jobs.queue| == c.cap
    decreases c.cap - |s.intake.jobs.queue|
  {
    t := s;
    if |s.intake.jobs.queue| < c.cap {
      t := RefillOne(c, s0, s);
      t := RefillAll(c, s0, t);
    }
  }

  /**
    With more submitters than the minimum all but one can overshoot, owing an undo each, on top of max
    idle workers.
   */
  lemma OvershootWithBacklog(c: Config, subs: nat, closers: nat) returns (s: State)
    requires c.Valid() && c.cap > 0 && c.min < c.max && c.min < subs
    ensures Reaches(Steps(c), Init(c, subs, closers), s) && Settling(s, 0, c.min + 1) && s.scale[0].AtEnd?
    ensures s.pool.counter == c.max + c.min && |s.pool.workers| == c.max && Reaped(s, 0) && |s.intake.jobs.queue| == 1
  {
    var s0, n := Init(c, subs, closers), c.min + 1;
    ReachesRefl(Steps(c), s0);
    s := GrowTo(c, s0, s0, c.max - 1);
    s := StageTo(c, s0, s, 0, n - 1);
    s := LoadOne(c, s0, s, n - 1);
    s := Fill(c, s0, s, n);
    s := AddAll(c, s0, s, 1, n);
  }

  /** Then submitter 0 fills the queue, every worker is reaped, and the undos leave nobody. */
  lemma DeadReached(c: Config, subs: nat, closers: nat) returns (s: State)
    requires c.Valid() && c.cap > 0 && c.min < c.max && c.min < subs
    ensures Reaches(Steps(c), Init(c, subs, closers), s)
    ensures Stranded(s) && AtRest(c, s) && |s.intake.jobs.queue| == c.cap
  {
    var s0 := Init(c, subs, closers);
    var u := OvershootWithBacklog(c, subs, closers);
    s := Do(Steps(c), s0, u, Admission(Intake.Submit(0, Intake.Go)));
    assert s.intake.subs == u.intake.subs[0 := Intake.Idle] && s.scale == u.scale[0 := Off];
    s := RefillAll(c, s0, s);
    assert Settling(s, 1, c.min + 1);
    s := ReapAll(c, s0, s, 0);
    s := SettleAll(c, s0, s, 1, c.min + 1);
    ReachableInv(c, subs, closers, s);
  }

  // ---- the exact statement ----

  /** Until the context is cancelled the pool only comes to rest with an empty queue. */
  ghost predicate NeverStrands(c: Config, subs: nat, closers: nat) {
    forall s :: Reaches(Steps(c), Init(c, subs, closers), s) && !s.intake.gate.cancelled && AtRest(c, s)
      ==> s.intake.jobs.queue == []
  }

  lemma BacklogMoves(c: Config, subs: nat, closers: nat, s: State)
    requires c.Valid() && Guaranteed(c, subs) > 0
    requires Reaches(Steps(c), Init(c, subs, closers), s) && !s.intake.gate.cancelled && s.intake.jobs.queue != []
    ensures !AtRest(c, s)
  {
    GuaranteeIsExact(c, subs, closers, Guaranteed(c, subs));
    DynPoolJobs.JobsConserved(c, subs, closers, s);
    var a := RegisteredMoves(c, s);
  }

  lemma OpenNotCancelled(c: Config, subs: nat, closers: nat, s: State)
    requires c.Valid() && Reaches(Steps(c), Init(c, subs, closers), s) && !s.intake.gate.closedCh
    ensures !s.intake.gate.cancelled
  {
    ReachableInv(c, subs, closers, s);
    Intake.CloseOrder(s.intake);
  }

  /**
    Every accepted job is got to, in every open pool at rest, exactly when there are at most min
    submitters or the pool cannot scale.
   */
  lemma NeverStrandsExactly(c: Config, subs: nat, closers: nat)
    requires c.Valid()
    ensures NeverStrands(c, subs, closers) <==> subs <= c.min || c.cap == 0 || c.min == c.max
  {
    if subs <= c.min || c.cap == 0 || c.min == c.max {
      forall s | Reaches(Steps(c), Init(c, subs, closers), s) && !s.intake.gate.cancelled && AtRest(c, s)
        ensures s.intake.jobs.queue == []
      {
        if s.intake.jobs.queue != [] { BacklogMoves(c, subs, closers, s); }
      }
    } else {
      var s := DeadReached(c, subs, closers);
      OpenNotCancelled(c, subs, closers, s);
    }
  }

  // ---- TrySubmit alone ----

  lemma TrySubmitNoPanic(c: Config, subs: nat, closers: nat, s: State)
    requires c.Valid() && Reaches(TrySubmitSteps(c), Init(c, subs, closers), s)
    ensures !s.intake.panicked
  {
    InitBounds(c, 1, subs, closers);
    var s0 := Init(c, subs, closers);
    hide Intake.Inv, CallInv, CountInv, FloorInv, Step, Init;
    var inv := (x: State) => Inv(c, x);
    forall x, a | inv(x) && TrySubmitSteps(c)(x, a).Some?
      ensures inv(TrySubmitSteps(c)(x, a).value)
    {
      InvStep(c, x, a);
    }
    ReachesInductive(TrySubmitSteps(c), inv, s0, s);
    Intake.JobFacts(c.Front(), s.intake);
  }

  /** With TrySubmit alone no job is ever stranded, whoever and however many call it. */
  lemma TrySubmitNeverStrands(c: Config, subs: nat, closers: nat, s: State)
    requires c.Valid() && Reaches(TrySubmitSteps(c), Init(c, subs, closers), s)
    requires !s.intake.gate.cancelled && AtRest(c, s)
    ensures s.intake.jobs.queue == []
  {
    TrySubmitBoundsHold(c, subs, closers, s);
    TrySubmitNoPanic(c, subs, closers, s);
    if s.intake.jobs.queue != [] { var a := RegisteredMoves(c, s); }
  }
}
