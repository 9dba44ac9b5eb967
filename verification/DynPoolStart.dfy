/**
  NewDynPool starts its workers one by one, and the first of them run before the
  last is started. Whatever they do meanwhile, the pool that is returned is in a
  state that a pool with all its workers in their first select reaches too, so
  the runs of DynPool leave nothing out.
 */
module DynPoolStart {
  import opened Options
  import opened Runs
  import Intake
  import opened DynPool

  // the three operations of spawnWorker, and what the workers started so far do
  datatype BuildAction = AddCounter | AddWg | StartWorker | Run(j: nat, op: WorkerOp)

  /** Before the first worker is started. */
  function Empty(subs: nat, closers: nat): State {
    State(Intake.Init(subs, closers), Pool(0, 0, []), seq(subs, i => Off), multiset{})
  }

  function BuildStep(c: Config, s: State, a: BuildAction): Option<State> {
    var p := s.pool;
    var n := |p.workers|;
    match a
    case AddCounter => if p.counter == p.wg == n < c.min then Some(s.(pool := p.(counter := p.counter + 1))) else None
    case AddWg => if p.counter == p.wg + 1 then Some(s.(pool := p.(wg := p.wg + 1))) else None
    case StartWorker =>
      if p.counter == p.wg == n + 1 then Some(s.(pool := p.(workers := p.workers + [Select(false)]))) else None
    case Run(j, op) => Step(c, s, Work(j, op))
  }

  function BuildSteps(c: Config): (State, BuildAction) -> Option<State> {
    (s, a) => BuildStep(c, s, a)
  }

  /** With the counter no higher than the minimum a worker can only notice that its timer has fired, and go on. */
  predicate Idling(w: Worker) { w.Select? || w.ReapLoad? }

  ghost predicate Building(c: Config, subs: nat, closers: nat, s: State) {
    && s == Empty(subs, closers).(pool := s.pool)
    && |s.pool.workers| <= s.pool.wg <= s.pool.counter <= |s.pool.workers| + 1
    && s.pool.counter <= c.min
    && forall j :: 0 <= j < |s.pool.workers| ==> Idling(s.pool.workers[j])
  }

  /** NewDynPool returns once all the workers are started. */
  predicate Returned(c: Config, s: State) { |s.pool.workers| == s.pool.wg == s.pool.counter == c.min }

  /** The workers from r on, still in their first select, come to where they are in t. */
  lemma {:induction false} CatchUp(c: Config, s0: State, s: State, t: State, r: nat)
    requires Reaches(Steps(c), s0, s) && !s.intake.panicked && s == t.(pool := t.pool.(workers := s.pool.workers))
    requires r <= |s.pool.workers| == |t.pool.workers| && s.pool.workers[..r] == t.pool.workers[..r]
    requires forall j :: r <= j < |s.pool.workers| ==> s.pool.workers[j] == Select(false) && Idling(t.pool.workers[j])
    ensures Reaches(Steps(c), s0, t)
    decreases |s.pool.workers| - r
  {
    if r == |s.pool.workers| {
      assert s.pool.workers == t.pool.workers;
    } else {
      var w, u := t.pool.workers[r], s;
      if w != Select(false) { u := Do(Steps(c), s0, u, Work(r, TimerReady)); }
      if w.ReapLoad? { u := Do(Steps(c), s0, u, Work(r, Fire)); }
      assert u.pool.workers == s.pool.workers[r := w];
      CatchUp(c, s0, u, t, r + 1);
    }
  }

  lemma BuildingStep(c: Config, subs: nat, closers: nat, s: State, a: BuildAction)
    requires Building(c, subs, closers, s) && BuildStep(c, s, a).Some?
    ensures var t := BuildStep(c, s, a).value;
      && Building(c, subs, closers, t)
      && (a.Run? ==> (t.pool.counter, t.pool.wg, |t.pool.workers|) == (s.pool.counter, s.pool.wg, |s.pool.workers|))
  {
  }

  lemma ConstructionIsInitial(c: Config, subs: nat, closers: nat, s: State)
    requires Reaches(BuildSteps(c), Empty(subs, closers), s) && Returned(c, s)
    ensures Reaches(Steps(c), Init(c, subs, closers), s)
  {
    var inv := (x: State) => Building(c, subs, closers, x);
    forall x, a | inv(x) && BuildSteps(c)(x, a).Some?
      ensures inv(BuildSteps(c)(x, a).value)
    {
      BuildingStep(c, subs, closers, x, a);
    }
    ReachesInductive(BuildSteps(c), inv, Empty(subs, closers), s);
    var s0 := Init(c, subs, closers);
    ReachesRefl(Steps(c), s0);
    CatchUp(c, s0, s0, s, 0);
  }
}
