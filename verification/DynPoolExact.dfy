/**
  Exactly when the dynamic pool keeps its minimum number of workers until it is
  closed, and exactly how far below the minimum it can fall otherwise.
 */
module DynPoolExact {
  import opened Runs
  import opened Sums
  import Intake
  import opened DynPool
  import opened DynPoolBounds
  import DynPoolCalls

  // ---- pools that never scale ----

  /** A call inside maybeScaleUp that cannot start a worker. */
  predicate Harmless(c: Config, x: Scale) {
    x.Off? || x.AtLoad? || x.AtEnd? || (x.AtLen? && c.cap == 0)
  }

  ghost predicate FixedInv(c: Config, s: State) {
    !s.intake.gate.cancelled ==>
      && s.pool.counter == c.min
      && forall i :: 0 <= i < |s.scale| ==> Harmless(c, s.scale[i])
  }

  lemma FixedWork(c: Config, s: State, j: nat, op: WorkerOp)
    requires Inv(c, s) && FixedInv(c, s) && j < |s.pool.workers| && WorkStep(c, s, j, op).Some?
    ensures FixedInv(c, WorkStep(c, s, j, op).value)
  {
    WorkCounts(c, s, j, op);
    hide Intake.Inv, CountInv, CallInv, WorkStep;
  }

  lemma FixedScale(c: Config, s: State, i: nat)
    requires c.cap == 0 || c.min == c.max
    requires |s.intake.jobs.queue| <= c.cap && FixedInv(c, s) && i < |s.scale| && ScaleStep(c, s, i).Some?
    ensures FixedInv(c, ScaleStep(c, s, i).value)
  {
  }

  lemma FixedStep(c: Config, s: State, a: Action)
    requires c.cap == 0 || c.min == c.max
    requires Inv(c, s) && FixedInv(c, s) && Step(c, s, a).Some?
    ensures FixedInv(c, Step(c, s, a).value)
  {
    Intake.CloseOrder(s.intake);
    assert |s.intake.jobs.queue| <= c.cap;
    hide Intake.Inv, CountInv, CallInv, Intake.Step, WorkStep, ScaleStep;
    match a
    case Work(j, op) => FixedWork(c, s, j, op);
    case Admission(b) => Intake.StepFrame(c.Front(), s.intake, b);
    case Meet(i, j) => Intake.StepFrame(c.Front(), s.intake, Intake.Submit(i, Intake.Meet));
    case ScaleGo(i) => FixedScale(c, s, i);
  }

  /** Unbuffered, or with no room to grow, the pool has exactly min workers until the context is cancelled. */
  lemma FixedSizeHolds(c: Config, subs: nat, closers: nat, s: State)
    requires c.Valid() && (c.cap == 0 || c.min == c.max)
    requires Reaches(Steps(c), Init(c, subs, closers), s) && !s.intake.gate.cancelled
    ensures s.pool.counter == c.min && Registered(s) == c.min
  {
    var inv := (x: State) => Inv(c, x) && FixedInv(c, x);
    forall x, a | inv(x) && Steps(c)(x, a).Some?
      ensures inv(Steps(c)(x, a).value)
    {
      InvStep(c, x, a);
      FixedStep(c, x, a);
    }
    InitBounds(c, 1, subs, closers);
    ReachesInductive(Steps(c), inv, Init(c, subs, closers), s);
    SumZero(Owing, s.scale);
  }

  // ---- a run that reaches the bound ----

  ghost predicate Quiet(x: Intake.State) {
    !x.panicked && x.gate == Intake.OPEN
  }

  /** The first a submitters are about to add to the counter; everybody else is idle. */
  ghost predicate Loading(s: State, a: nat) {
    && Quiet(s.intake)
    && a <= |s.scale| == |s.intake.subs|
    && (forall i :: 0 <= i < |s.scale| ==>
          if i < a then s.intake.subs[i].Post? && s.intake.subs[i].kind.SubmitWithContext? && s.scale[i].AtAdd?
          else s.intake.subs[i].Idle? && s.scale[i].Off?)
    && (forall j :: 0 <= j < |s.pool.workers| ==> s.pool.workers[j].Select?)
    && s.pool.counter == |s.pool.workers| > 0
  }

  /** And the queue is empty. */
  ghost predicate Staged(s: State, a: nat) { Loading(s, a) && s.intake.jobs.queue == [] }

  lemma PassTests(c: Config, s0: State, s: State, i: nat) returns (t: State)
    requires Reaches(Steps(c), s0, s) && !s.intake.panicked && i < |s.scale| && s.scale[i].AtLoad?
    requires s.pool.counter < c.max && |s.intake.jobs.queue| > 0
    ensures Reaches(Steps(c), s0, t) && t == s.(scale := s.scale[i := AtAdd])
  {
    t := Do(Steps(c), s0, s, ScaleGo(i));
    t := Do(Steps(c), s0, t, ScaleGo(i));
  }

  /** One more submitter gets there, leaving its job in the queue. */
  lemma LoadOne(c: Config, s0: State, s: State, a: nat) returns (t: State)
    requires Reaches(Steps(c), s0, s) && Staged(s, a) && a < |s.scale| && s.pool.counter < c.max && c.cap > 0
    ensures Reaches(Steps(c), s0, t) && Loading(t, a + 1)
    ensures |t.scale| == |s.scale| && t.pool == s.pool && |t.intake.jobs.queue| == 1
  {
    t := DynPoolCalls.QueuesJob(c, s0, s, a);
    t := PassTests(c, s0, t, a);
  }

  lemma RunJob(c: Config, s0: State, s: State) returns (t: State)
    requires Reaches(Steps(c), s0, s) && !s.intake.panicked && |s.intake.jobs.queue| > 0
    requires |s.pool.workers| > 0 && s.pool.workers[0].Select?
    ensures Reaches(Steps(c), s0, t) && t.scale == s.scale
    ensures t.pool == s.pool.(workers := s.pool.workers[0 := Select(false)])
    ensures t.intake == s.intake.(jobs := t.intake.jobs)
    ensures t.intake.jobs.queue == s.intake.jobs.queue[1..]
  {
    t := Do(Steps(c), s0, s, Work(0, TakeJob));
    t := Do(Steps(c), s0, t, Work(0, Go));
  }

  /** One more submitter gets there while the counter is below the maximum; worker 0 then runs its job. */
  lemma StageOne(c: Config, s0: State, s: State, a: nat) returns (t: State)
    requires Reaches(Steps(c), s0, s) && Staged(s, a) && a < |s.scale| && s.pool.counter < c.max && c.cap > 0
    ensures Reaches(Steps(c), s0, t) && Staged(t, a + 1)
    ensures |t.scale| == |s.scale| && |t.pool.workers| == |s.pool.workers|
  {
    t := LoadOne(c, s0, s, a);
    t := RunJob(c, s0, t);
  }

  /** Submitter 0 makes one whole call, which starts a worker. */
  lemma GrowOne(c: Config, s0: State, s: State) returns (t: State)
    requires Reaches(Steps(c), s0, s) && Staged(s, 0) && |s.scale| > 0 && s.pool.counter < c.max && c.cap > 0
    ensures Reaches(Steps(c), s0, t) && Staged(t, 0)
    ensures |t.scale| == |s.scale| && t.pool.counter == s.pool.counter + 1
  {
    var u := StageOne(c, s0, s, 0);
    t := Do(Steps(c), s0, u, ScaleGo(0));
    t := Do(Steps(c), s0, t, ScaleGo(0));
    t := Do(Steps(c), s0, t, ScaleGo(0));
    t := Do(Steps(c), s0, t, Admission(Intake.Submit(0, Intake.Go)));
    assert t.scale == u.scale[0 := Off];
  }

  lemma {:induction false} GrowTo(c: Config, s0: State, s: State, n: nat) returns (t: State)
    requires Reaches(Steps(c), s0, s) && Staged(s, 0) && |s.scale| > 0 && s.pool.counter <= n <= c.max && c.cap > 0
    ensures Reaches(Steps(c), s0, t) && Staged(t, 0) && |t.scale| == |s.scale| && t.pool.counter == n
    decreases n - s.pool.counter
  {
    t := s;
    if s.pool.counter < n {
      t := GrowOne(c, s0, s);
      t := GrowTo(c, s0, t, n);
    }
  }

  lemma {:induction false} StageTo(c: Config, s0: State, s: State, a: nat, n: nat) returns (t: State)
    requires Reaches(Steps(c), s0, s) && Staged(s, a) && a <= n <= |s.scale| && s.pool.counter < c.max && c.cap > 0
    ensures Reaches(Steps(c), s0, t) && Staged(t, n) && |t.pool.workers| == |s.pool.workers| && |t.scale| == |s.scale|
    decreases n - a
  {
    t := s;
    if a < n {
      t := StageOne(c, s0, s, a);
      t := StageTo(c, s0, t, a + 1, n);
    }
  }

  /** Slots from a to n - 1 still have to add, on top of a full counter. */
  ghost predicate Overfull(c: Config, s: State, a: nat, n: nat) {
    && Quiet(s.intake) && a <= n <= |s.scale|
    && (forall i :: a <= i < n ==> s.scale[i].AtAdd?)
    && (forall j :: 0 <= j < |s.pool.workers| ==> s.pool.workers[j].Select?)
    && s.pool.counter >= |s.pool.workers| == c.max
  }

  /** Slots a to n - 1 add to a counter that is full already, and owe it an undo. */
  lemma {:induction false} AddAll(c: Config, s0: State, s: State, a: nat, n: nat) returns (t: State)
    requires Reaches(Steps(c), s0, s) && !s.intake.panicked && a <= n <= |s.scale| && s.pool.counter >= c.max
    requires forall i :: a <= i < n ==> s.scale[i].AtAdd?
    ensures Reaches(Steps(c), s0, t) && t.intake == s.intake && |t.scale| == |s.scale|
    ensures t.pool == s.pool.(counter := s.pool.counter + (n - a)) && Undos(t) == Undos(s) + (n - a)
    ensures forall i :: 0 <= i < |s.scale| ==> t.scale[i] == if a <= i < n then AtUndo else s.scale[i]
    decreases n - a
  {
    t := s;
    if a < n {
      t := Do(Steps(c), s0, s, ScaleGo(a));
      SlotSums(s.scale, a, AtUndo);
      t := AddAll(c, s0, t, a + 1, n);
    }
  }

  /** Slot 0 fills the counter and starts the last worker. */
  lemma Fill(c: Config, s0: State, s: State, n: nat) returns (t: State)
    requires Reaches(Steps(c), s0, s) && Loading(s, n) && n > 0 && s.pool.counter == c.max - 1
    ensures Reaches(Steps(c), s0, t) && Overfull(c, t, 1, n) && t.pool.counter == c.max && Undos(t) == 0
    ensures t.intake == s.intake && t.scale == s.scale[0 := AtEnd]
  {
    t := Do(Steps(c), s0, s, ScaleGo(0));
    t := Do(Steps(c), s0, t, ScaleGo(0));
    t := Do(Steps(c), s0, t, ScaleGo(0));
    assert t.scale == s.scale[0 := AtEnd];
    SumZero(Owing, t.scale);
  }

  /** Workers r and above are idle; the others have left. */
  ghost predicate Reaped(s: State, r: nat) {
    && Quiet(s.intake) && r <= |s.pool.workers|
    && forall j :: 0 <= j < |s.pool.workers| ==> if j < r then s.pool.workers[j].Gone? else s.pool.workers[j].Select?
  }

  lemma ReapOne(c: Config, s0: State, s: State, r: nat) returns (t: State)
    requires Reaches(Steps(c), s0, s) && Reaped(s, r) && r < |s.pool.workers| && s.pool.counter > c.min
    ensures Reaches(Steps(c), s0, t) && Reaped(t, r + 1) && t.scale == s.scale && t.intake == s.intake
    ensures t.pool.counter == s.pool.counter - 1 && |t.pool.workers| == |s.pool.workers|
  {
    t := Do(Steps(c), s0, s, Work(r, TimerReady));
    t := Do(Steps(c), s0, t, Work(r, Fire));
    t := Do(Steps(c), s0, t, Work(r, Go));
    t := Do(Steps(c), s0, t, Work(r, Go));
    t := Do(Steps(c), s0, t, Work(r, Go));
    assert t.pool.workers == s.pool.workers[r := Gone];
  }

  lemma {:induction false} ReapAll(c: Config, s0: State, s: State, r: nat) returns (t: State)
    requires Reaches(Steps(c), s0, s) && Reaped(s, r) && c.min <= s.pool.counter <= c.min + (|s.pool.workers| - r)
    ensures Reaches(Steps(c), s0, t) && t.scale == s.scale && t.intake == s.intake && t.pool.counter == c.min
    ensures |t.pool.workers| == |s.pool.workers| && Reaped(t, r + (s.pool.counter - c.min))
    decreases |s.pool.workers| - r
  {
    t := s;
    if s.pool.counter > c.min {
      t := ReapOne(c, s0, s, r);
      t := ReapAll(c, s0, t, r + 1);
    }
  }

  /** Any shortfall the bound allows does happen, provided the pool can scale at all. */
  lemma ShortfallReached(c: Config, subs: nat, closers: nat, d: nat) returns (s: State)
    requires c.Valid() && c.cap > 0 && c.min < c.max && d < subs && d <= c.min
    ensures Reaches(Steps(c), Init(c, subs, closers), s) && !s.intake.gate.cancelled
    ensures Registered(s) == c.min - d
  {
    var s0 := Init(c, subs, closers);
    ReachesRefl(Steps(c), s0);
    s := GrowTo(c, s0, s0, c.max - 1);
    s := StageTo(c, s0, s, 0, d + 1);
    s := Fill(c, s0, s, d + 1);
    s := AddAll(c, s0, s, 1, d + 1);
    s := ReapAll(c, s0, s, 0);
    SubmitterBoundsHold(c, subs, subs, closers, s);
  }

  // ---- the exact statement ----

  /** Until the context is cancelled the pool never has fewer than low registered workers. */
  ghost predicate KeepsAtLeast(c: Config, subs: nat, closers: nat, low: int) {
    forall s :: Reaches(Steps(c), Init(c, subs, closers), s) && !s.intake.gate.cancelled ==> Registered(s) >= low
  }

  /** The most workers the pool is sure to keep, for subs submitting goroutines. */
  function Guaranteed(c: Config, subs: nat): nat {
    if subs <= 1 || c.cap == 0 || c.min == c.max then c.min
    else if subs - 1 <= c.min then c.min - (subs - 1)
    else 0
  }

  lemma GuaranteeIsExact(c: Config, subs: nat, closers: nat, low: int)
    requires c.Valid()
    ensures KeepsAtLeast(c, subs, closers, low) <==> low <= Guaranteed(c, subs)
  {
    var g := Guaranteed(c, subs);
    forall s | Reaches(Steps(c), Init(c, subs, closers), s) && !s.intake.gate.cancelled
      ensures Registered(s) >= g
    {
      if c.cap == 0 || c.min == c.max {
        FixedSizeHolds(c, subs, closers, s);
      } else {
        SubmitterBoundsHold(c, if subs == 0 then 1 else subs, subs, closers, s);
      }
    }
    if low > g {
      if g == c.min {
        var s := Init(c, subs, closers);
        ReachesRefl(Steps(c), s);
        InitBounds(c, 1, subs, closers);
        assert Registered(s) < low;
      } else {
        var s := ShortfallReached(c, subs, closers, c.min - g);
        assert Registered(s) < low;
      }
    }
  }

  /** The minimum is kept in every run exactly when the calls cannot overlap or the pool cannot scale. */
  lemma MinimumKeptExactly(c: Config, subs: nat, closers: nat)
    requires c.Valid()
    ensures KeepsAtLeast(c, subs, closers, c.min) <==> subs <= 1 || c.cap == 0 || c.min == c.max
  {
    GuaranteeIsExact(c, subs, closers, c.min);
  }
}
