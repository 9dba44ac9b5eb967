/** Which jobs Close of the dynamic pool can leave behind: it cancels the workers before it closes the queue. */
module DynPoolDrain {
  import opened Runs
  import opened Bags
  import opened DynPool
  import DynPoolCalls
  import opened DynPoolBounds
  import opened DynPoolExact
  import opened DynPoolJobs
  import opened DynPoolShutdown

  /** Whenever Close has returned and the pool is at rest, every accepted job has been run. */
  ghost predicate DrainsAlways(c: Config, subs: nat, closers: nat) {
    forall s :: Reaches(Steps(c), Init(c, subs, closers), s) && s.intake.gate.once.Done? && AtRest(c, s)
      ==> multiset(s.intake.jobs.accepted) == s.finished
  }

  /** Every job received was run. */
  lemma RestMeansRun(c: Config, subs: nat, closers: nat, s: State)
    requires c.Valid() && Reaches(Steps(c), Init(c, subs, closers), s) && s.intake.gate.once.Done? && AtRest(c, s)
    ensures multiset(s.intake.jobs.taken) == s.finished
    ensures s.intake.jobs.accepted == s.intake.jobs.taken + s.intake.jobs.queue
    ensures |s.intake.jobs.queue| <= c.cap
  {
    ReachableInv(c, subs, closers, s);
    RestMeansGone(c, s);
    JobsConserved(c, subs, closers, s);
    BagEmpty(InHand, s.pool.workers);
  }

  /** A call alone in maybeScaleUp, with a job in the queue: it finds the counter full or starts a worker. */
  lemma ScaleAlone(c: Config, s0: State, s: State, i: nat) returns (t: State)
    requires Reaches(Steps(c), s0, s) && !s.intake.panicked && i < |s.scale| && s.scale[i].AtLoad?
    requires s.intake.jobs.queue != []
    ensures Reaches(Steps(c), s0, t) && t.intake == s.intake && t.scale == s.scale[i := AtEnd]
    ensures t.pool.workers == s.pool.workers || t.pool.workers == s.pool.workers + [Select(false)]
  {
    t := s;
    if s.pool.counter < c.max {
      t := PassTests(c, s0, t, i);
      t := Do(Steps(c), s0, t, ScaleGo(i));
      t := Do(Steps(c), s0, t, ScaleGo(i));
    }
    t := Do(Steps(c), s0, t, ScaleGo(i));
    assert t.scale == s.scale[i := AtEnd];
  }

  /** A job sent just before Close, and left in the queue by workers that all see the cancellation. */
  lemma LeftBehind(c: Config, subs: nat, closers: nat) returns (s: State)
    requires c.Valid() && c.cap > 0 && subs > 0 && closers > 0
    ensures Reaches(Steps(c), Init(c, subs, closers), s) && s.intake.gate.once.Done? && AtRest(c, s)
    ensures s.intake.jobs.queue != []
  {
    var s0 := Init(c, subs, closers);
    ReachesRefl(Steps(c), s0);
    s := DynPoolCalls.QueuesJob(c, s0, s0, 0);
    s := ScaleAlone(c, s0, s, 0);
    s := CloseAll(c, s0, s);
    s := LeaveAll(c, s0, s, 0);
  }

  /**
    Close drains what was accepted, in every run, exactly when there is no buffer to leave anything in
    or nobody submits.
   */
  lemma DrainsExactly(c: Config, subs: nat, closers: nat)
    requires c.Valid() && closers > 0
    ensures DrainsAlways(c, subs, closers) <==> c.cap == 0 || subs == 0
  {
    if c.cap == 0 || subs == 0 {
      forall s | Reaches(Steps(c), Init(c, subs, closers), s) && s.intake.gate.once.Done? && AtRest(c, s)
        ensures multiset(s.intake.jobs.accepted) == s.finished
      {
        RestMeansRun(c, subs, closers, s);
        if subs == 0 { NothingQueued(c, closers, s); }
        assert s.intake.jobs.taken + [] == s.intake.jobs.taken;
      }
    } else {
      var s := LeftBehind(c, subs, closers);
      RestMeansRun(c, subs, closers, s);
      assert |multiset(s.intake.jobs.accepted)| > |multiset(s.intake.jobs.taken)|;
    }
  }
}
