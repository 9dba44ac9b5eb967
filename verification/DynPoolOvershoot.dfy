/** How far the counter of the dynamic pool can go: exactly, for every configuration and number of callers. */
module DynPoolOvershoot {
  import opened Runs
  import opened DynPool
  import DynPoolCalls
  import opened DynPoolBounds
  import opened DynPoolExact
  import opened DynPoolShutdown
  import opened DynPoolWait

  // ---- pools whose counter never rises ----

  /** Without a queue or without submitters nobody ever gets to add. */
  lemma NeverRises(c: Config, subs: nat, closers: nat, s: State)
    requires c.Valid() && (c.cap == 0 || subs == 0) && Reaches(Steps(c), Init(c, subs, closers), s)
    ensures s.pool.counter <= c.min
  {
    LowHolds(c, subs, closers, s);
  }

  lemma NobodyClosesStep(c: Config, s: State, a: Action)
    requires s.intake.closers == [] && !s.intake.gate.cancelled && Step(c, s, a).Some?
    ensures var t := Step(c, s, a).value; t.intake.closers == [] && !t.intake.gate.cancelled
  {
  }

  lemma NobodyCloses(c: Config, subs: nat, s: State)
    requires Reaches(Steps(c), Init(c, subs, 0), s)
    ensures !s.intake.gate.cancelled
  {
    var inv := (x: State) => x.intake.closers == [] && !x.intake.gate.cancelled;
    forall x, a | inv(x) && Steps(c)(x, a).Some?
      ensures inv(Steps(c)(x, a).value)
    {
      NobodyClosesStep(c, x, a);
    }
    ReachesInductive(Steps(c), inv, Init(c, subs, 0), s);
  }

  // ---- a run that reaches the ceiling: below the maximum ----

  lemma OvershootByScaling(c: Config, subs: nat, closers: nat, k: nat) returns (s: State)
    requires c.Valid() && c.cap > 0 && c.min < c.max && k < subs
    ensures Reaches(Steps(c), Init(c, subs, closers), s) && s.pool.counter == c.max + k
  {
    var s0 := Init(c, subs, closers);
    ReachesRefl(Steps(c), s0);
    s := GrowTo(c, s0, s0, c.max - 1);
    s := StageTo(c, s0, s, 0, k + 1);
    s := Fill(c, s0, s, k + 1);
    s := AddAll(c, s0, s, 1, k + 1);
  }

  // ---- a run that reaches the ceiling: at the maximum, after a cancellation has lowered the counter ----

  /** The first a submitters have sent and unlocked and are on entry of maybeScaleUp. */
  ghost predicate Entering(c: Config, s: State, a: nat) {
    && Quiet(s.intake) && a <= |s.scale| == |s.intake.subs|
    && (forall i :: 0 <= i < |s.scale| ==> if i < a then s.scale[i].AtLoad? else s.intake.subs[i].Idle?)
    && (forall j :: 0 <= j < |s.pool.workers| ==> s.pool.workers[j].Select?)
    && s.pool.counter == c.max && |s.pool.workers| > 0
  }

  lemma EnterOne(c: Config, s0: State, s: State, a: nat) returns (t: State)
    requires Reaches(Steps(c), s0, s) && Entering(c, s, a) && a < |s.scale| && s.intake.jobs.queue == [] && c.cap > 0
    ensures Reaches(Steps(c), s0, t) && Entering(c, t, a + 1) && |t.intake.jobs.queue| == 1
    ensures |t.scale| == |s.scale| && t.intake.closers == s.intake.closers
  {
    t := DynPoolCalls.QueuesJob(c, s0, s, a);
  }

  lemma {:induction false} EnterTo(c: Config, s0: State, s: State, a: nat, n: nat) returns (t: State)
    requires Reaches(Steps(c), s0, s) && Entering(c, s, a) && a < n <= |s.scale| && s.intake.jobs.queue == [] && c.cap > 0
    ensures Reaches(Steps(c), s0, t) && Entering(c, t, n) && |t.intake.jobs.queue| == 1
    ensures |t.scale| == |s.scale| && t.intake.closers == s.intake.closers
    decreases n - a
  {
    t := EnterOne(c, s0, s, a);
    if a + 1 < n {
      t := RunJob(c, s0, t);
      t := EnterTo(c, s0, t, a + 1, n);
    }
  }

  /** The slots from a on pass both tests while the counter is below the maximum. */
  lemma {:induction false} PassAll(c: Config, s0: State, s: State, a: nat, n: nat) returns (t: State)
    requires Reaches(Steps(c), s0, s) && !s.intake.panicked && a <= n <= |s.scale|
    requires s.pool.counter < c.max && s.intake.jobs.queue != []
    requires forall i :: 0 <= i < n ==> if i < a then s.scale[i].AtAdd? else s.scale[i].AtLoad?
    ensures Reaches(Steps(c), s0, t) && t.intake == s.intake && t.pool == s.pool && |t.scale| == |s.scale|
    ensures forall i :: 0 <= i < n ==> t.scale[i].AtAdd?
    decreases n - a
  {
    t := s;
    if a < n {
      t := PassTests(c, s0, s, a);
      t := PassAll(c, s0, t, a + 1, n);
    }
  }

  lemma OvershootByClosing(c: Config, subs: nat, closers: nat, k: nat) returns (s: State)
    requires c.Valid() && c.cap > 0 && c.min == c.max && closers > 0 && k < subs
    ensures Reaches(Steps(c), Init(c, subs, closers), s) && s.pool.counter == c.max + k
  {
    var s0 := Init(c, subs, closers);
    ReachesRefl(Steps(c), s0);
    s := EnterTo(c, s0, s0, 0, k + 1);
    s := CloseAll(c, s0, s);
    s := Do(Steps(c), s0, s, Work(0, SeeCancel));
    s := Do(Steps(c), s0, s, Work(0, Go));
    s := PassAll(c, s0, s, 0, k + 1);
    s := Do(Steps(c), s0, s, ScaleGo(0));
    s := AddAll(c, s0, s, 1, k + 1);
  }

  // ---- the exact statement ----

  /** The counter is never above high. */
  ghost predicate CounterAtMost(c: Config, subs: nat, closers: nat, high: int) {
    forall s :: Reaches(Steps(c), Init(c, subs, closers), s) ==> s.pool.counter <= high
  }

  /** The highest count of any run, for subs submitting and closers closing goroutines. */
  function Ceiling(c: Config, subs: nat, closers: nat): int {
    if subs == 0 || c.cap == 0 || (c.min == c.max && closers == 0) then c.min else c.max + (subs - 1)
  }

  lemma CeilingReached(c: Config, subs: nat, closers: nat) returns (s: State)
    requires c.Valid()
    ensures Reaches(Steps(c), Init(c, subs, closers), s) && s.pool.counter == Ceiling(c, subs, closers)
  {
    s := Init(c, subs, closers);
    ReachesRefl(Steps(c), s);
    if subs > 0 && c.cap > 0 {
      if c.min < c.max {
        s := OvershootByScaling(c, subs, closers, subs - 1);
      } else if closers > 0 {
        s := OvershootByClosing(c, subs, closers, subs - 1);
      }
    }
  }

  lemma CeilingIsExact(c: Config, subs: nat, closers: nat, high: int)
    requires c.Valid()
    ensures CounterAtMost(c, subs, closers, high) <==> Ceiling(c, subs, closers) <= high
  {
    forall s | Reaches(Steps(c), Init(c, subs, closers), s)
      ensures s.pool.counter <= Ceiling(c, subs, closers)
    {
      if subs == 0 || c.cap == 0 {
        NeverRises(c, subs, closers, s);
      } else if c.min == c.max && closers == 0 {
        NobodyCloses(c, subs, s);
        FixedSizeHolds(c, subs, closers, s);
      } else {
        SubmitterBoundsHold(c, subs, subs, closers, s);
      }
    }
    if high < Ceiling(c, subs, closers) {
      var s := CeilingReached(c, subs, closers);
    }
  }

  /**
    The count overshoots by 1 at most, in every run, exactly for two submitters or fewer and for pools
    that cannot scale.
   */
  lemma OvershootsByOneExactly(c: Config, subs: nat, closers: nat)
    requires c.Valid()
    ensures CounterAtMost(c, subs, closers, c.max + 1)
       <==> subs <= 2 || c.cap == 0 || (c.min == c.max && closers == 0)
  {
    CeilingIsExact(c, subs, closers, c.max + 1);
  }
}
