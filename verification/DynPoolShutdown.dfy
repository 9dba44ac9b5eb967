/** After Close of the dynamic pool: every run comes to rest with all workers gone. */
module DynPoolShutdown {
  import opened Options
  import opened Runs
  import opened Sums
  import Intake
  import IntakeProgress
  import opened DynPool

  /** Close has returned. */
  ghost predicate Closed(c: Config, s: State) {
    Inv(c, s) && s.intake.gate.once.Done?
  }

  /** Steps of the pool itself: the workers and the calls still inside maybeScaleUp. */
  predicate Internal(a: Action) {
    a.ScaleGo? || (a.Work? && !a.op.TimerReady?)
  }

  // ---- the measure ----

  // changes of the counter still to come
  function Changes(x: Scale): nat {
    match x
    case AtLoad => 2 case AtLen => 2 case AtAdd => 2
    case AtWg => 1 case AtGo => 1 case AtUndo => 1
    case _ => 0
  }
  // workers that exist or may still be started
  function Spawnable(x: Scale): nat { if x.Off? || x.AtUndo? || x.AtEnd? then 0 else 1 }

  function ScaleRank(x: Scale): nat {
    match x
    case AtLoad => 3 case AtLen => 2 case AtAdd => 1
    case AtWg => 4 case AtGo => 3
    case AtUndo => 1
    case _ => 0
  }

  /** A stale compare-and-swap costs another round; a fresh one succeeds. */
  function WorkerRank(counter: int, w: Worker): nat {
    match w
    case Select(ready) => if ready then 5 else 2
    case Busy(_) => 3
    case ReapLoad => 3
    case ReapCas(cur) => if cur == counter then 1 else 4
    case AtDec => 1
    case Exiting => 1
    case Gone => 0
  }

  function RankAt(counter: int): Worker -> nat {
    w => WorkerRank(counter, w)
  }

  function ChangesLeft(p: Pool, scale: seq<Scale>): nat { Sum(Changes, scale) + Sum(Live, p.workers) }
  function Entities(p: Pool, scale: seq<Scale>): nat { |p.workers| + Sum(Spawnable, scale) + |scale| }
  function Ranks(p: Pool, scale: seq<Scale>): nat { Sum(ScaleRank, scale) + Sum(RankAt(p.counter), p.workers) }

  /**
    Counter changes and queued jobs first; between two of them every entity can
    only fall in rank, of which it has at most five.
   */
  function Weigh(events: nat, entities: nat, ranks: nat): nat { events * (5 * entities + 1) + ranks }

  function Potential(s: State): nat {
    Weigh(ChangesLeft(s.pool, s.scale) + |s.intake.jobs.queue|, Entities(s.pool, s.scale), Ranks(s.pool, s.scale))
  }

  lemma MulLe(k: nat, x: nat, y: nat)
    requires x <= y
    ensures k * x <= k * y && x * k <= y * k
  {
  }

  lemma WeighEvent(e: nat, n: nat, r: nat, e': nat, n': nat, r': nat)
    requires e' < e && n' <= n && r' <= 5 * n'
    ensures Weigh(e', n', r') < Weigh(e, n, r)
  {
    var b, b' := 5 * n + 1, 5 * n' + 1;
    assert e' * b' <= e' * b by { MulLe(e', b', b); }
    assert (e' + 1) * b <= e * b by { MulLe(b, e' + 1, e); }
    assert (e' + 1) * b == e' * b + b;
  }

  lemma WeighRank(e: nat, n: nat, r: nat, e': nat, n': nat, r': nat)
    requires e' <= e && n' <= n && r' < r
    ensures Weigh(e', n', r') < Weigh(e, n, r)
  {
    MulLe(e', 5 * n' + 1, 5 * n + 1);
    MulLe(5 * n + 1, e', e);
  }

  lemma RanksBound(p: Pool, scale: seq<Scale>)
    ensures Ranks(p, scale) <= 5 * Entities(p, scale)
  {
    SumAtMost(ScaleRank, scale, 5);
    SumAtMost(RankAt(p.counter), p.workers, 5);
  }

  lemma SlotWeights(scale: seq<Scale>, i: nat, x: Scale)
    requires i < |scale|
    ensures var after := scale[i := x];
      && Sum(Changes, after) == Sum(Changes, scale) - Changes(scale[i]) + Changes(x)
      && Sum(Spawnable, after) == Sum(Spawnable, scale) - Spawnable(scale[i]) + Spawnable(x)
      && Sum(ScaleRank, after) == Sum(ScaleRank, scale) - ScaleRank(scale[i]) + ScaleRank(x)
  {
    SumUpdate(Changes, scale, i, x);
    SumUpdate(Spawnable, scale, i, x);
    SumUpdate(ScaleRank, scale, i, x);
  }

  /** A call moves on inside maybeScaleUp without touching the counter. */
  lemma CallFalls(p: Pool, scale: seq<Scale>, i: nat, x: Scale, wg: int, q: nat)
    requires i < |scale| && Changes(x) <= Changes(scale[i]) && Spawnable(x) <= Spawnable(scale[i])
    requires ScaleRank(x) < ScaleRank(scale[i])
    ensures var p', after := p.(wg := wg), scale[i := x];
      Weigh(ChangesLeft(p', after) + q, Entities(p', after), Ranks(p', after))
      < Weigh(ChangesLeft(p, scale) + q, Entities(p, scale), Ranks(p, scale))
  {
    hide Weigh;
    var p', after := p.(wg := wg), scale[i := x];
    SlotWeights(scale, i, x);
    WeighRank(ChangesLeft(p, scale) + q, Entities(p, scale), Ranks(p, scale),
              ChangesLeft(p', after) + q, Entities(p', after), Ranks(p', after));
  }

  /** A call changes the counter. */
  lemma CallCounts(p: Pool, scale: seq<Scale>, i: nat, x: Scale, counter: int, q: nat)
    requires i < |scale| && Changes(x) < Changes(scale[i]) && Spawnable(x) <= Spawnable(scale[i])
    ensures var p', after := p.(counter := counter), scale[i := x];
      Weigh(ChangesLeft(p', after) + q, Entities(p', after), Ranks(p', after))
      < Weigh(ChangesLeft(p, scale) + q, Entities(p, scale), Ranks(p, scale))
  {
    hide Weigh;
    var p', after := p.(counter := counter), scale[i := x];
    SlotWeights(scale, i, x);
    RanksBound(p', after);
    WeighEvent(ChangesLeft(p, scale) + q, Entities(p, scale), Ranks(p, scale),
               ChangesLeft(p', after) + q, Entities(p', after), Ranks(p', after));
  }

  /** A call starts the worker it has counted in. */
  lemma CallStarts(p: Pool, scale: seq<Scale>, i: nat, q: nat)
    requires i < |scale| && scale[i].AtGo?
    ensures var p', after := p.(workers := p.workers + [Select(false)]), scale[i := AtEnd];
      Weigh(ChangesLeft(p', after) + q, Entities(p', after), Ranks(p', after))
      < Weigh(ChangesLeft(p, scale) + q, Entities(p, scale), Ranks(p, scale))
  {
    hide Weigh;
    var p', after := p.(workers := p.workers + [Select(false)]), scale[i := AtEnd];
    SlotWeights(scale, i, AtEnd);
    SumAppend(Live, p.workers, Select(false));
    SumAppend(RankAt(p.counter), p.workers, Select(false));
    WeighRank(ChangesLeft(p, scale) + q, Entities(p, scale), Ranks(p, scale),
              ChangesLeft(p', after) + q, Entities(p', after), Ranks(p', after));
  }

  lemma ScaleDecreases(c: Config, s: State, i: nat)
    requires i < |s.scale| && ScaleStep(c, s, i).Some?
    ensures Potential(ScaleStep(c, s, i).value) < Potential(s)
  {
    hide Weigh, ChangesLeft, Entities, Ranks;
    var t := ScaleStep(c, s, i).value;
    var q := |s.intake.jobs.queue|;
    if s.scale[i].AtAdd? || s.scale[i].AtUndo? {
      CallCounts(s.pool, s.scale, i, t.scale[i], t.pool.counter, q);
    } else if s.scale[i].AtGo? {
      CallStarts(s.pool, s.scale, i, q);
    } else {
      CallFalls(s.pool, s.scale, i, t.scale[i], t.pool.wg, q);
    }
  }

  /** A worker falls in rank while the counter stays. */
  lemma RankFalls(p: Pool, scale: seq<Scale>, j: nat, w: Worker, wg: int, q: nat)
    requires j < |p.workers| && Live(w) <= Live(p.workers[j])
    requires WorkerRank(p.counter, w) < WorkerRank(p.counter, p.workers[j])
    ensures var p' := MovePool(p, j, w, p.counter, wg);
      Weigh(ChangesLeft(p', scale) + q, Entities(p', scale), Ranks(p', scale))
      < Weigh(ChangesLeft(p, scale) + q, Entities(p, scale), Ranks(p, scale))
  {
    hide Weigh;
    var p' := MovePool(p, j, w, p.counter, wg);
    SumUpdate(Live, p.workers, j, w);
    SumUpdate(RankAt(p.counter), p.workers, j, w);
    WeighRank(ChangesLeft(p, scale) + q, Entities(p, scale), Ranks(p, scale),
              ChangesLeft(p', scale) + q, Entities(p', scale), Ranks(p', scale));
  }

  /** A worker counts itself out, or takes a job. */
  lemma EventHappens(p: Pool, scale: seq<Scale>, j: nat, w: Worker, counter: int, q: nat, q': nat)
    requires j < |p.workers| && q' + Live(w) < q + Live(p.workers[j])
    ensures var p' := MovePool(p, j, w, counter, p.wg);
      Weigh(ChangesLeft(p', scale) + q', Entities(p', scale), Ranks(p', scale))
      < Weigh(ChangesLeft(p, scale) + q, Entities(p, scale), Ranks(p, scale))
  {
    hide Weigh;
    var p' := MovePool(p, j, w, counter, p.wg);
    SumUpdate(Live, p.workers, j, w);
    RanksBound(p', scale);
    WeighEvent(ChangesLeft(p, scale) + q, Entities(p, scale), Ranks(p, scale),
               ChangesLeft(p', scale) + q', Entities(p', scale), Ranks(p', scale));
  }

  lemma WorkDecreases(c: Config, s: State, j: nat, op: WorkerOp)
    requires j < |s.pool.workers| && !op.TimerReady? && WorkStep(c, s, j, op).Some?
    ensures Potential(WorkStep(c, s, j, op).value) < Potential(s)
  {
    hide Weigh, ChangesLeft, Entities, Ranks;
    var t := WorkStep(c, s, j, op).value;
    var q := |s.intake.jobs.queue|;
    var w := t.pool.workers[j];
    if op.TakeJob? || t.pool.counter != s.pool.counter {
      EventHappens(s.pool, s.scale, j, w, t.pool.counter, q, |t.intake.jobs.queue|);
    } else {
      RankFalls(s.pool, s.scale, j, w, t.pool.wg, q);
    }
  }

  // ---- rest ----

  /** A call leaving maybeScaleUp has nothing left to do. */
  lemma LeavingCosts(p: Pool, scale: seq<Scale>, i: nat, q: nat)
    requires i < |scale| && scale[i].AtEnd?
    ensures var after := scale[i := Off];
      Weigh(ChangesLeft(p, after) + q, Entities(p, after), Ranks(p, after))
      == Weigh(ChangesLeft(p, scale) + q, Entities(p, scale), Ranks(p, scale))
  {
    SlotWeights(scale, i, Off);
  }

  /** Close has returned: nothing is sent any more, and no call enters maybeScaleUp. */
  lemma ClosedFrame(c: Config, s: State, a: Action)
    requires Closed(c, s) && Step(c, s, a).Some? && (a.Admission? || a.Meet?)
    ensures var t := Step(c, s, a).value;
      && t.intake.gate.once.Done? && t.intake.jobs.queue == s.intake.jobs.queue && t.pool == s.pool
      && (t.scale == s.scale
          || (a.Admission? && a.a.Submit? && a.a.i < |s.scale| && s.scale[a.a.i].AtEnd? && t.scale == s.scale[a.a.i := Off]))
  {
    hide CallInv, CountInv, FloorInv;
    var b := if a.Meet? then Intake.Submit(a.i, Intake.Meet) else a.a;
    Intake.ClosedStep(c.Front(), s.intake, b);
    hide Intake.Step, Intake.Inv;
  }

  lemma ClosedAdmission(c: Config, s: State, a: Action)
    requires Closed(c, s) && Step(c, s, a).Some? && (a.Admission? || a.Meet?)
    ensures var t := Step(c, s, a).value;
      Potential(t) == Potential(s) && t.intake.gate.once.Done? && t.intake.jobs.queue == s.intake.jobs.queue
      && |t.scale| == |s.scale| && t.pool == s.pool
      && (forall i :: 0 <= i < |s.scale| ==> t.scale[i] == s.scale[i] || (s.scale[i].AtEnd? && t.scale[i].Off?))
  {
    ClosedFrame(c, s, a);
    hide Closed, Step, Weigh, ChangesLeft, Entities, Ranks;
    if Step(c, s, a).value.scale != s.scale {
      LeavingCosts(s.pool, s.scale, a.a.i, |s.intake.jobs.queue|);
    }
  }

  lemma WorkGate(c: Config, s: State, j: nat, op: WorkerOp)
    requires j < |s.pool.workers| && WorkStep(c, s, j, op).Some?
    ensures var t := WorkStep(c, s, j, op).value.intake;
      t.gate == s.intake.gate && t.panicked == s.intake.panicked && t.subs == s.intake.subs
  {
  }

  /** Every step of the pool uses up potential and no other step gives any back. */
  lemma ClosedStep(c: Config, s: State, a: Action)
    requires Closed(c, s) && Step(c, s, a).Some? && !(a.Work? && a.op.TimerReady?)
    ensures var t := Step(c, s, a).value;
      Closed(c, t) && (if Internal(a) then Potential(t) < Potential(s) else Potential(t) == Potential(s))
  {
    InvStep(c, s, a);
    hide Inv, Potential, AdmissionStep, MeetStep, Intake.Step;
    match a
    case ScaleGo(i) => ScaleDecreases(c, s, i);
    case Work(j, op) => WorkDecreases(c, s, j, op); WorkGate(c, s, j, op);
    case _ => ClosedAdmission(c, s, a);
  }

  function InternalSteps(run: seq<Action>): nat {
    if run == [] then 0 else (if Internal(run[0]) then 1 else 0) + InternalSteps(run[1..])
  }

  predicate Fires(a: Action) { a.Work? && a.op.TimerReady? }

  function Timers(run: seq<Action>): nat {
    if run == [] then 0 else (if Fires(run[0]) then 1 else 0) + Timers(run[1..])
  }

  /** An idle timer that fires takes its worker from rank 2 to rank 5, if anywhere. */
  lemma TimerCosts(c: Config, s: State, j: nat)
    requires j < |s.pool.workers| && WorkStep(c, s, j, TimerReady).Some?
    ensures Potential(WorkStep(c, s, j, TimerReady).value) <= Potential(s) + 3
  {
    var p, q := s.pool, WorkStep(c, s, j, TimerReady).value.pool;
    SumUpdate(Live, p.workers, j, Select(true));
    SumUpdate(RankAt(p.counter), p.workers, j, Select(true));
    assert ChangesLeft(q, s.scale) == ChangesLeft(p, s.scale) && Entities(q, s.scale) == Entities(p, s.scale);
    assert Ranks(q, s.scale) <= Ranks(p, s.scale) + 3;
    hide ChangesLeft, Entities, Ranks;
  }

  lemma TimerStep(c: Config, s: State, j: nat)
    requires Closed(c, s) && Step(c, s, Work(j, TimerReady)).Some?
    ensures var t := Step(c, s, Work(j, TimerReady)).value; Closed(c, t) && Potential(t) <= Potential(s) + 3
  {
    InvStep(c, s, Work(j, TimerReady));
    TimerCosts(c, s, j);
    WorkGate(c, s, j, TimerReady);
    hide Inv, Potential, WorkStep;
  }

  /**
    However callers and closers keep going, each step of the pool after Close uses up potential, and
    each timer gives 3.
   */
  lemma {:induction false} CloseBoundsEveryRun(c: Config, s: State, run: seq<Action>, t: State)
    requires Closed(c, s) && Exec(Steps(c), s, run) == Some(t)
    ensures Closed(c, t) && InternalSteps(run) + Potential(t) <= Potential(s) + 3 * Timers(run)
    decreases |run|
  {
    hide Potential, Closed, Step, WorkStep;
    if run != [] {
      var u := Step(c, s, run[0]).value;
      if Fires(run[0]) { TimerStep(c, s, run[0].j); } else { ClosedStep(c, s, run[0]); }
      CloseBoundsEveryRun(c, u, run[1..], t);
    }
  }

  /** The workers waiting in their select with a timer that has not fired. */
  function Waiting(ws: seq<Worker>): set<nat> {
    set j: nat | j < |ws| && ws[j] == Select(false)
  }

  /** Timers fire only for the given workers, once for each. */
  predicate FireOnce(idle: set<nat>, run: seq<Action>) {
    run == []
    || if Fires(run[0]) then run[0].j in idle && FireOnce(idle - {run[0].j}, run[1..])
       else FireOnce(idle, run[1..])
  }

  lemma {:induction false} FewTimers(idle: set<nat>, run: seq<Action>)
    requires FireOnce(idle, run)
    ensures Timers(run) <= |idle|
    decreases |run|
  {
    if run != [] {
      FewTimers(if Fires(run[0]) then idle - {run[0].j} else idle, run[1..]);
    }
  }

  lemma {:induction false} FewWaiting(ws: seq<Worker>)
    ensures |Waiting(ws)| <= |ws|
  {
    if ws != [] {
      var n := |ws| - 1;
      FewWaiting(ws[..n]);
      assert Waiting(ws) == Waiting(ws[..n]) + if ws[n] == Select(false) then {n} else {};
    }
  }

  /**
    So with timers that, once re-armed, are not ready at the next select, the steps of the pool after
    Close has returned are bounded by the state alone: only the timers armed before can still fire.
   */
  lemma CloseBoundsPunctualRuns(c: Config, s: State, run: seq<Action>, t: State)
    requires Closed(c, s) && Exec(Steps(c), s, run) == Some(t)
    requires FireOnce(Waiting(s.pool.workers), run)
    ensures InternalSteps(run) + Potential(t) <= Potential(s) + 3 * |Waiting(s.pool.workers)|
    ensures InternalSteps(run) + Potential(t) <= Potential(s) + 3 * |s.pool.workers|
  {
    CloseBoundsEveryRun(c, s, run, t);
    FewTimers(Waiting(s.pool.workers), run);
    FewWaiting(s.pool.workers);
  }

  ghost predicate AllGone(s: State) {
    forall j :: 0 <= j < |s.pool.workers| ==> s.pool.workers[j].Gone?
  }

  /** No step of the pool is enabled. */
  ghost predicate AtRest(c: Config, s: State) {
    forall a :: Internal(a) ==> Step(c, s, a).None?
  }

  /** What a worker of a closed pool can do next. */
  function NextOp(w: Worker): WorkerOp { if w.Select? then SeeCancel else Go }

  /** When the pool has come to rest after Close, every worker has left and Wait can return. */
  lemma RestMeansGone(c: Config, s: State)
    requires Closed(c, s) && AtRest(c, s)
    ensures AllGone(s) && s.pool.counter == 0 && s.pool.wg == 0
  {
    forall j | 0 <= j < |s.pool.workers|
      ensures s.pool.workers[j].Gone?
    {
      assert Internal(Work(j, NextOp(s.pool.workers[j])));
    }
    forall i | 0 <= i < |s.scale|
      ensures s.scale[i].Off? || s.scale[i].AtEnd?
    {
      assert Internal(ScaleGo(i));
    }
    hide Intake.Inv, CallInv, FloorInv;
    SumZero(Live, s.pool.workers);
    SumZero(Present, s.pool.workers);
    SumZero(Spawning, s.scale);
    SumZero(Owing, s.scale);
    SumZero(Announced, s.scale);
  }

  // ---- one whole Close, and all workers leaving ----

  /** Closer 0 runs Close of an open pool from start to end: what it does to the intake it does to the pool. */
  lemma CloseAll(c: Config, s0: State, s: State) returns (t: State)
    requires Reaches(Steps(c), s0, s) && !s.intake.panicked && |s.intake.closers| > 0 && s.intake.closers[0].Outside?
    requires s.intake.gate == Intake.OPEN
    ensures Reaches(Steps(c), s0, t) && t == s.(intake := s.intake.(gate := Intake.SHUT))
  {
    t := s.(intake := s.intake.(gate := Intake.SHUT));
    Intake.CloseAll(c.Front(), s.intake);
    var inner, put := Intake.CloserSteps(c.Front()), (x: Intake.State) => s.(intake := x);
    forall x, a | inner(x, a).Some?
      ensures Steps(c)(put(x), Admission(a)) == Some(put(inner(x, a).value))
    {
      hide Intake.Step;
    }
    Lift(inner, Steps(c), put, (a: Intake.Action) => Admission(a), s.intake, t.intake);
    ReachesTrans(Steps(c), s0, s, t);
  }

  /** Workers from r on leave because the context is cancelled. */
  lemma {:induction false} LeaveAll(c: Config, s0: State, s: State, r: nat) returns (t: State)
    requires Reaches(Steps(c), s0, s) && !s.intake.panicked && s.intake.gate.cancelled && r <= |s.pool.workers|
    requires forall j :: 0 <= j < |s.pool.workers| ==> if j < r then s.pool.workers[j].Gone? else s.pool.workers[j].Select?
    ensures Reaches(Steps(c), s0, t) && AllGone(t) && t.scale == s.scale && t.intake == s.intake
    decreases |s.pool.workers| - r
  {
    t := s;
    if r < |s.pool.workers| {
      t := Do(Steps(c), s0, t, Work(r, SeeCancel));
      t := Do(Steps(c), s0, t, Work(r, Go));
      t := Do(Steps(c), s0, t, Work(r, Go));
      assert t.pool.workers == s.pool.workers[r := Gone];
      t := LeaveAll(c, s0, t, r + 1);
    }
  }

  // ---- calls return ----

  /** A call about to leave maybeScaleUp can leave. */
  lemma AdmissionMoves(c: Config, s: State, a: Intake.Action)
    requires Inv(c, s) && !s.intake.panicked
    requires IntakeProgress.InProgress(s.intake, a) && Intake.Step(c.Front(), s.intake, a).Some?
    requires Step(c, s, Admission(a)).None?
    ensures a.Submit? && a.i < |s.scale| && !s.scale[a.i].Off? && !s.scale[a.i].AtEnd?
  {
    hide Intake.Inv, CountInv, FloorInv, Intake.Step;
  }

  /** Where no submitting or closing goroutine can go on, maybeScaleUp included, none is in a call. */
  lemma CallsNeverDeadlock(c: Config, s: State)
    requires Inv(c, s)
    requires forall a :: IntakeProgress.InProgress(s.intake, a) ==> Step(c, s, Admission(a)).None?
    requires forall i :: Step(c, s, ScaleGo(i)).None?
    ensures s.intake.gate.mu.Free?
    ensures forall i :: 0 <= i < |s.intake.subs| ==> s.intake.subs[i].Idle?
    ensures forall k :: 0 <= k < |s.intake.closers| ==> s.intake.closers[k].Outside?
  {
    assert Intake.SafeInv(s.intake) && !s.intake.panicked;
    hide Inv, Intake.SafeInv, Intake.Step, AdmissionStep;
    forall a | IntakeProgress.InProgress(s.intake, a) ensures Intake.Step(c.Front(), s.intake, a).None? {
      if Intake.Step(c.Front(), s.intake, a).Some? {
        AdmissionMoves(c, s, a);
        assert Step(c, s, ScaleGo(a.i)).None?;
      }
    }
    IntakeProgress.NoDeadlock(c.Front(), s.intake);
  }
}
