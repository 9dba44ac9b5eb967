/**
  The dynamic worker pool: the intake protocol, a lock-free worker counter that
  maybeScaleUp raises optimistically (add, then undo past the maximum) and idle
  workers lower by compare-and-swap, and the worker loop. One action per atomic
  operation; any number of submitters, closers and workers.
 */
module DynPool {
  import opened Options
  import opened Sums
  import Intake

  datatype Config = Config(min: nat, max: nat, cap: nat) {
    predicate Valid() { 0 < min <= max }
    function Front(): Intake.Config { Intake.Config(cap, true) }
  }

  /**
    Where a submitting goroutine stands inside maybeScaleUp. AtLoad is on entry,
    AtLen has loaded a count below the maximum, AtAdd has also seen a backlog,
    AtWg and AtGo are about to start a worker already counted, AtUndo owes the
    counter a decrement.
   */
  datatype Scale = Off | AtLoad | AtLen | AtAdd | AtWg | AtGo | AtUndo | AtEnd

  /**
    A worker goroutine. ready: its idle timer has fired. AtDec is about to
    lower the counter on its way out, Exiting already has.
   */
  datatype Worker =
    | Select(ready: bool)
    | Busy(job: Intake.Job)
    | ReapLoad
    | ReapCas(cur: int)
    | AtDec
    | Exiting
    | Gone

  datatype Pool = Pool(counter: int, wg: int, workers: seq<Worker>)

  // finished: history of the jobs whose run has ended, by return, error or panic
  datatype State = State(intake: Intake.State, pool: Pool, scale: seq<Scale>, finished: multiset<Intake.Job>)

  /** What a worker does next: one of the ready branches of its select, or the one thing it can do. */
  datatype WorkerOp = TakeJob | SeeCancel | SeeClosed | TimerReady | Fire | Go

  datatype Action =
    | Admission(a: Intake.Action)
    | Meet(i: nat, j: nat)        // an unbuffered send meets worker j
    | ScaleGo(i: nat)
    | Work(j: nat, op: WorkerOp)

  function Init(c: Config, subs: nat, closers: nat): State {
    State(Intake.Init(subs, closers), Pool(c.min, c.min, seq(c.min, j => Select(false))), seq(subs, i => Off), multiset{})
  }

  function MovePool(p: Pool, j: nat, w: Worker, counter: int, wg: int): Pool
    requires j < |p.workers|
  {
    Pool(counter, wg, p.workers[j := w])
  }

  /** maybeScaleUp runs between the send and the return of the call. */
  function AdmissionStep(c: Config, s: State, a: Intake.Action): Option<State> {
    if a.Take? || (a.Submit? && (a.op.Meet? || a.i >= |s.scale| || a.i >= |s.intake.subs|)) then None
    else
      match Intake.Step(c.Front(), s.intake, a)
      case None => None
      case Some(t) =>
        if !a.Submit? then Some(s.(intake := t))
        else if s.intake.subs[a.i].Post? then
          if s.scale[a.i].AtEnd? then Some(s.(intake := t, scale := s.scale[a.i := Off])) else None
        else if a.i < |t.subs| && t.subs[a.i].Post? then Some(s.(intake := t, scale := s.scale[a.i := AtLoad]))
        else Some(s.(intake := t))
  }

  function MeetStep(c: Config, s: State, i: nat, j: nat): Option<State> {
    if i >= |s.scale| || i >= |s.intake.subs| || j >= |s.pool.workers| || !s.pool.workers[j].Select?
       || !s.intake.subs[i].Sending? then None
    else
      match Intake.Step(c.Front(), s.intake, Intake.Submit(i, Intake.Meet))
      case None => None
      case Some(t) =>
        Some(State(t, MovePool(s.pool, j, Busy(s.intake.subs[i].job), s.pool.counter, s.pool.wg),
                   if t.subs[i].Post? then s.scale[i := AtLoad] else s.scale, s.finished))
  }

  /** maybeScaleUp, one atomic operation at a time. */
  function ScaleStep(c: Config, s: State, i: nat): Option<State>
    requires i < |s.scale|
  {
    var p := s.pool;
    match s.scale[i]
    case Off => None
    case AtLoad => Some(s.(scale := s.scale[i := if p.counter >= c.max then AtEnd else AtLen]))
    case AtLen => Some(s.(scale := s.scale[i := if |s.intake.jobs.queue| > 0 then AtAdd else AtEnd]))
    case AtAdd =>
      Some(s.(pool := p.(counter := p.counter + 1),
              scale := s.scale[i := if p.counter + 1 <= c.max then AtWg else AtUndo]))
    case AtWg => Some(s.(pool := p.(wg := p.wg + 1), scale := s.scale[i := AtGo]))
    case AtGo => Some(s.(pool := p.(workers := p.workers + [Select(false)]), scale := s.scale[i := AtEnd]))
    case AtUndo => Some(s.(pool := p.(counter := p.counter - 1), scale := s.scale[i := AtEnd]))
    case AtEnd => None
  }

  function TakeStep(c: Config, s: State, j: nat): Option<State>
    requires j < |s.pool.workers|
  {
    match Intake.Step(c.Front(), s.intake, Intake.Take)
    case None => None
    case Some(t) =>
      if s.intake.jobs.queue == [] then None
      else Some(s.(intake := t, pool := MovePool(s.pool, j, Busy(s.intake.jobs.queue[0]), s.pool.counter, s.pool.wg)))
  }

  /** The worker loop, one select branch or atomic operation at a time. */
  function WorkStep(c: Config, s: State, j: nat, op: WorkerOp): Option<State>
    requires j < |s.pool.workers|
  {
    var p := s.pool;
    match p.workers[j]
    case Select(ready) =>
      (match op
       case TakeJob => TakeStep(c, s, j)
       case SeeCancel =>
         if s.intake.gate.cancelled then Some(s.(pool := MovePool(p, j, AtDec, p.counter, p.wg))) else None
       case SeeClosed =>
         if s.intake.gate.queueClosed && s.intake.jobs.queue == []
         then Some(s.(pool := MovePool(p, j, AtDec, p.counter, p.wg))) else None
       case TimerReady => Some(s.(pool := MovePool(p, j, Select(true), p.counter, p.wg)))
       case Fire => if ready then Some(s.(pool := MovePool(p, j, ReapLoad, p.counter, p.wg))) else None
       case Go => None)
    case Busy(job) =>
      // the job returns, fails or panics; the idle timer is stopped, drained and re-armed
      if op.Go? then
        Some(s.(pool := MovePool(p, j, Select(false), p.counter, p.wg), finished := s.finished + multiset{job}))
      else None
    case ReapLoad =>
      if op.Go? then
        Some(s.(pool := MovePool(p, j, if p.counter <= c.min then Select(false) else ReapCas(p.counter), p.counter, p.wg)))
      else None
    case ReapCas(cur) =>
      if !op.Go? then None
      else if p.counter == cur then Some(s.(pool := MovePool(p, j, Exiting, p.counter - 1, p.wg)))
      else Some(s.(pool := MovePool(p, j, ReapLoad, p.counter, p.wg)))
    case AtDec =>
      if op.Go? then Some(s.(pool := MovePool(p, j, Exiting, p.counter - 1, p.wg))) else None
    case Exiting =>
      if op.Go? then Some(s.(pool := MovePool(p, j, Gone, p.counter, p.wg - 1))) else None
    case Gone => None
  }

  function Step(c: Config, s: State, a: Action): Option<State> {
    if s.intake.panicked then None
    else match a
      case Admission(b) => AdmissionStep(c, s, b)
      case Meet(i, j) => MeetStep(c, s, i, j)
      case ScaleGo(i) => if i < |s.scale| then ScaleStep(c, s, i) else None
      case Work(j, op) => if j < |s.pool.workers| then WorkStep(c, s, j, op) else None
  }

  function Steps(c: Config): (State, Action) -> Option<State> {
    (s, a) => Step(c, s, a)
  }

  // ---- what is counted ----

  // a worker that still counts itself in
  function Live(w: Worker): nat { if w.Exiting? || w.Gone? then 0 else 1 }
  // a worker the WaitGroup still waits for
  function Present(w: Worker): nat { if w.Gone? then 0 else 1 }
  function Working(w: Worker): nat { if w.Busy? then 1 else 0 }

  // a call inside maybeScaleUp
  function InFlight(x: Scale): nat { if x.Off? then 0 else 1 }
  // a worker counted but not yet started
  function Spawning(x: Scale): nat { if x.AtWg? || x.AtGo? then 1 else 0 }
  function Announced(x: Scale): nat { if x.AtGo? then 1 else 0 }
  function Owing(x: Scale): nat { if x.AtUndo? then 1 else 0 }
  // past its load, and not (or not yet) entitled to start a worker
  function Loaded(x: Scale): nat { if x.AtLen? || x.AtAdd? || x.AtUndo? then 1 else 0 }

  /** Registered workers: started and not yet counted out, or counted in and about to be started. */
  function Registered(s: State): nat { Sum(Live, s.pool.workers) + Sum(Spawning, s.scale) }
  function Undos(s: State): nat { Sum(Owing, s.scale) }
  function Calls(s: State): nat { Sum(InFlight, s.scale) }

  // ---- the invariant of every run ----

  /** Exactly the calls past their send are in maybeScaleUp. */
  ghost predicate CallInv(subs: seq<Intake.Sub>, scale: seq<Scale>) {
    |scale| == |subs| && forall i :: 0 <= i < |subs| ==> (scale[i].Off? <==> !subs[i].Post?)
  }

  /** The counter is the registered workers plus the undos owed, and the WaitGroup is exact. */
  ghost predicate CountInv(c: Config, p: Pool, scale: seq<Scale>) {
    && p.counter == Sum(Live, p.workers) + Sum(Spawning, scale) + Sum(Owing, scale)
    && p.wg == Sum(Present, p.workers) + Sum(Announced, scale)
    && Sum(Live, p.workers) + Sum(Spawning, scale) <= c.max
  }

  /** Before the context is cancelled workers only leave by compare-and-swap from a count above the minimum. */
  ghost predicate FloorInv(c: Config, p: Pool) {
    forall j :: 0 <= j < |p.workers| ==> !p.workers[j].AtDec? && (p.workers[j].ReapCas? ==> p.workers[j].cur > c.min)
  }

  ghost predicate Inv(c: Config, s: State) {
    && Intake.Inv(c.Front(), s.intake)
    && CallInv(s.intake.subs, s.scale)
    && CountInv(c, s.pool, s.scale)
    && (!s.intake.gate.cancelled ==> FloorInv(c, s.pool))
  }

  // ---- one step keeps it ----

  lemma AdmissionCalls(c: Config, s: State, a: Intake.Action)
    requires Intake.Inv(c.Front(), s.intake) && CallInv(s.intake.subs, s.scale) && AdmissionStep(c, s, a).Some?
    ensures var t := AdmissionStep(c, s, a).value;
      t.pool == s.pool && CallInv(t.intake.subs, t.scale) && Intake.Inv(c.Front(), t.intake)
  {
    hide Intake.Inv, Intake.Step;
    Intake.InvStep(c.Front(), s.intake, a);
    Intake.StepFrame(c.Front(), s.intake, a);
  }

  lemma SlotSums(scale: seq<Scale>, i: nat, x: Scale)
    requires i < |scale|
    ensures var after := scale[i := x];
      && Sum(InFlight, after) == Sum(InFlight, scale) - InFlight(scale[i]) + InFlight(x)
      && Sum(Spawning, after) == Sum(Spawning, scale) - Spawning(scale[i]) + Spawning(x)
      && Sum(Announced, after) == Sum(Announced, scale) - Announced(scale[i]) + Announced(x)
      && Sum(Owing, after) == Sum(Owing, scale) - Owing(scale[i]) + Owing(x)
      && Sum(Loaded, after) == Sum(Loaded, scale) - Loaded(scale[i]) + Loaded(x)
  {
    SumUpdate(InFlight, scale, i, x);
    SumUpdate(Spawning, scale, i, x);
    SumUpdate(Announced, scale, i, x);
    SumUpdate(Owing, scale, i, x);
    SumUpdate(Loaded, scale, i, x);
  }

  lemma WorkerSums(ws: seq<Worker>, j: nat, w: Worker)
    requires j < |ws|
    ensures var after := ws[j := w];
      && Sum(Live, after) == Sum(Live, ws) - Live(ws[j]) + Live(w)
      && Sum(Present, after) == Sum(Present, ws) - Present(ws[j]) + Present(w)
  {
    SumUpdate(Live, ws, j, w);
    SumUpdate(Present, ws, j, w);
  }

  lemma AdmissionInv(c: Config, s: State, a: Intake.Action)
    requires Inv(c, s) && AdmissionStep(c, s, a).Some?
    ensures Inv(c, AdmissionStep(c, s, a).value)
  {
    hide Intake.Inv, Intake.Step, FloorInv;
    AdmissionCalls(c, s, a);
    Intake.StepFrame(c.Front(), s.intake, a);
    if a.Submit? {
      SlotSums(s.scale, a.i, AtLoad);
      SlotSums(s.scale, a.i, Off);
    }
  }

  lemma MeetInv(c: Config, s: State, i: nat, j: nat)
    requires Inv(c, s) && MeetStep(c, s, i, j).Some?
    ensures Inv(c, MeetStep(c, s, i, j).value)
  {
    hide Intake.Inv, Intake.Step;
    var a := Intake.Submit(i, Intake.Meet);
    Intake.InvStep(c.Front(), s.intake, a);
    Intake.StepFrame(c.Front(), s.intake, a);
    SlotSums(s.scale, i, AtLoad);
    var w := MeetStep(c, s, i, j).value.pool.workers[j];
    WorkerSums(s.pool.workers, j, w);
  }

  /** A call moves on, and the pool follows it. */
  lemma SlotCounts(c: Config, p: Pool, scale: seq<Scale>, i: nat, x: Scale, q: Pool)
    requires CountInv(c, p, scale) && i < |scale|
    requires q.counter - p.counter == Sum(Live, q.workers) - Sum(Live, p.workers)
               + Spawning(x) - Spawning(scale[i]) + Owing(x) - Owing(scale[i])
    requires q.wg - p.wg == Sum(Present, q.workers) - Sum(Present, p.workers) + Announced(x) - Announced(scale[i])
    requires Sum(Live, q.workers) + Spawning(x) <= Sum(Live, p.workers) + Spawning(scale[i])
               + (if p.counter < c.max then 1 else 0)
    ensures CountInv(c, q, scale[i := x])
  {
    SlotSums(scale, i, x);
  }

  lemma ScaleCounts(c: Config, s: State, i: nat)
    requires CountInv(c, s.pool, s.scale) && i < |s.scale| && ScaleStep(c, s, i).Some?
    ensures var t := ScaleStep(c, s, i).value; CountInv(c, t.pool, t.scale)
  {
    hide CountInv;
    var t := ScaleStep(c, s, i).value;
    SumAppend(Live, s.pool.workers, Select(false));
    SumAppend(Present, s.pool.workers, Select(false));
    SlotCounts(c, s.pool, s.scale, i, t.scale[i], t.pool);
  }

  lemma ScaleInv(c: Config, s: State, i: nat)
    requires Inv(c, s) && i < |s.scale| && ScaleStep(c, s, i).Some?
    ensures Inv(c, ScaleStep(c, s, i).value)
  {
    hide Intake.Inv, CountInv;
    ScaleCounts(c, s, i);
  }

  /** A worker moves, and the counter and the WaitGroup follow it. */
  lemma MovePoolInv(c: Config, p: Pool, scale: seq<Scale>, cancelled: bool, j: nat, w: Worker, counter: int, wg: int)
    requires CountInv(c, p, scale) && (!cancelled ==> FloorInv(c, p)) && j < |p.workers|
    requires counter - p.counter == Live(w) - Live(p.workers[j]) && Live(w) <= Live(p.workers[j])
    requires wg - p.wg == Present(w) - Present(p.workers[j])
    requires !cancelled ==> !w.AtDec? && (w.ReapCas? ==> w.cur > c.min)
    ensures var q := MovePool(p, j, w, counter, wg); CountInv(c, q, scale) && (!cancelled ==> FloorInv(c, q))
  {
    WorkerSums(p.workers, j, w);
  }

  lemma TakeInv(c: Config, s: State, j: nat)
    requires Inv(c, s) && j < |s.pool.workers| && s.pool.workers[j].Select? && TakeStep(c, s, j).Some?
    ensures Inv(c, TakeStep(c, s, j).value)
  {
    hide Intake.Inv, Intake.Step, CountInv, FloorInv;
    Intake.InvStep(c.Front(), s.intake, Intake.Take);
    Intake.StepFrame(c.Front(), s.intake, Intake.Take);
    MovePoolInv(c, s.pool, s.scale, s.intake.gate.cancelled, j, Busy(s.intake.jobs.queue[0]), s.pool.counter, s.pool.wg);
  }

  lemma WorkInv(c: Config, s: State, j: nat, op: WorkerOp)
    requires Inv(c, s) && j < |s.pool.workers| && WorkStep(c, s, j, op).Some?
    ensures Inv(c, WorkStep(c, s, j, op).value)
  {
    Intake.CloseOrder(s.intake);
    hide Intake.Inv, CountInv, TakeStep;
    if s.pool.workers[j].Select? && op.TakeJob? {
      TakeInv(c, s, j);
    } else {
      var q := WorkStep(c, s, j, op).value.pool;
      MovePoolInv(c, s.pool, s.scale, s.intake.gate.cancelled, j, q.workers[j], q.counter, q.wg);
    }
  }

  lemma InvStep(c: Config, s: State, a: Action)
    requires Inv(c, s) && Step(c, s, a).Some?
    ensures Inv(c, Step(c, s, a).value)
  {
    hide Inv, AdmissionStep, MeetStep, ScaleStep, WorkStep;
    match a
    case Admission(b) => AdmissionInv(c, s, b);
    case Meet(i, j) => MeetInv(c, s, i, j);
    case ScaleGo(i) => ScaleInv(c, s, i);
    case Work(j, op) => WorkInv(c, s, j, op);
  }
}
