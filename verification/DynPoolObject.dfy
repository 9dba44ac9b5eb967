/**
  The dynamic pool as the program keeps it: its counter, WaitGroup, workers and
  intake updated in place. Each method is the next atomic operation of one
  goroutine, and keeps the invariant from which the bounds, the conservation of
  jobs and the shutdown results follow.
 */
module DynPoolObject {
  import opened Options
  import opened Runs
  import opened Sums
  import opened DynPool
  import opened DynPoolStart
  import DynPoolBounds
  import Intake
  import IntakeObject

  class DynamicPool {
    const minWorkers: nat
    const maxWorkers: nat
    const front: IntakeObject.Front
    var counter: int
    var wg: int
    var workers: seq<Worker>
    var scale: seq<Scale>
    ghost var finished: multiset<Intake.Job>

    ghost function Settings(): Config { Config(minWorkers, maxWorkers, front.cap) }

    ghost function View(): State
      reads this, front
    {
      State(front.View(), Pool(counter, wg, workers), scale, finished)
    }

    ghost predicate Valid()
      reads this, front
    {
      front.Settings() == Settings().Front() && Inv(Settings(), View())
    }

    /** The outcome of one operation: the step the action makes from s, or none and no change. */
    ghost predicate Made(s: State, a: Action, done: bool)
      reads this, front
    {
      match Step(Settings(), s, a)
      case None => !done && View() == s
      case Some(t) => done && View() == t
    }

    /** Worker j leaves if the counter still is what it loaded, and loads again otherwise. */
    method CompareAndSwap(j: nat, cur: int)
      requires j < |workers|
      modifies this
      ensures View() == old(View()).(pool :=
        if old(counter) == cur then MovePool(old(View()).pool, j, Exiting, cur - 1, old(wg))
        else MovePool(old(View()).pool, j, ReapLoad, old(counter), old(wg)))
    {
      if counter == cur {
        counter, workers := cur - 1, workers[j := Exiting];
      } else {
        workers := workers[j := ReapLoad];
      }
    }

    /**
      Every operation of a worker but the receive: the select's other branches, the end of a job, the
      reaping, the exit.
     */
    method Move(j: nat, op: WorkerOp) returns (done: bool)
      requires j < |workers| && !(workers[j].Select? && op.TakeJob?)
      modifies this
      ensures Made(old(View()), Action.Work(j, op), done)
    {
      done := op.Go? != workers[j].Select?;
      if !done {
        return;
      }
      match workers[j]
      case Select(ready) =>
        if (op.SeeCancel? && front.cancelled) || (op.SeeClosed? && front.queueClosed && front.queue == []) {
          workers := workers[j := AtDec];
        } else if op.TimerReady? {
          workers := workers[j := Select(true)];
        } else if op.Fire? && ready {
          workers := workers[j := ReapLoad];
        } else {
          done := false;
        }
      case Busy(job) => workers, finished := workers[j := Select(false)], finished + multiset{job};
      case ReapLoad => workers := workers[j := if counter <= minWorkers then Select(false) else ReapCas(counter)];
      case ReapCas(cur) => CompareAndSwap(j, cur);
      case AtDec => counter, workers := counter - 1, workers[j := Exiting];
      case Exiting => wg, workers := wg - 1, workers[j := Gone];
      case Gone => done := false;
    }

    /** NewDynPool is in its loop, and the pool is in a state some interleaving with its workers leads to. */
    ghost predicate Starting(submitters: nat, closing: nat)
      reads this, front
    {
      && Reaches(BuildSteps(Settings()), Empty(submitters, closing), View())
      && Building(Settings(), submitters, closing, View())
    }

    /** NewDynPool takes the given next step of its loop. */
    lemma Started(submitters: nat, closing: nat, before: State, a: BuildAction)
      requires Reaches(BuildSteps(Settings()), Empty(submitters, closing), before)
      requires Building(Settings(), submitters, closing, before) && BuildStep(Settings(), before, a) == Some(View())
      ensures Starting(submitters, closing)
      ensures a.Run? ==> (counter, wg, |workers|) == (before.pool.counter, before.pool.wg, |before.pool.workers|)
    {
      ReachesStep(BuildSteps(Settings()), Empty(submitters, closing), before, a);
      BuildingStep(Settings(), submitters, closing, before, a);
    }

    /** The workers started so far make some moves. */
    method LetRun(moves: seq<(nat, WorkerOp)>, ghost submitters: nat, ghost closing: nat)
      requires Starting(submitters, closing)
      modifies this
      ensures Starting(submitters, closing)
      ensures counter == old(counter) && wg == old(wg) && |workers| == old(|workers|)
      ensures moves == [] ==> workers == old(workers)
    {
      hide Step, Building;
      var k := 0;
      while k < |moves|
        invariant k <= |moves| && Starting(submitters, closing)
        invariant counter == old(counter) && wg == old(wg) && |workers| == old(|workers|)
        invariant moves == [] ==> workers == old(workers)
      {
        var (j, op) := moves[k];
        if j < |workers| && !(workers[j].Select? && op.TakeJob?) {    // there is no job yet
          ghost var before := View();
          var done := Move(j, op);
          if done {
            Started(submitters, closing, before, BuildAction.Run(j, op));
          }
        }
        k := k + 1;
      }
    }

    /** One worker is counted, announced and started; those started before make some moves in between. */
    method SpawnWorker(meanwhile: seq<seq<(nat, WorkerOp)>>, k: nat, ghost submitters: nat, ghost closing: nat)
      requires Starting(submitters, closing) && counter == wg == |workers| < minWorkers
      modifies this
      ensures Starting(submitters, closing) && counter == wg == |workers| == old(|workers|) + 1
      ensures meanwhile == [] ==> workers == old(workers) + [Select(false)]
    {
      hide Step, Building;
      LetRun(if k < |meanwhile| then meanwhile[k] else [], submitters, closing);
      ghost var before := View();
      counter := counter + 1;
      Started(submitters, closing, before, AddCounter);
      LetRun(if k + 1 < |meanwhile| then meanwhile[k + 1] else [], submitters, closing);
      before := View();
      wg := wg + 1;
      Started(submitters, closing, before, AddWg);
      LetRun(if k + 2 < |meanwhile| then meanwhile[k + 2] else [], submitters, closing);
      before := View();
      workers := workers + [Select(false)];
      Started(submitters, closing, before, StartWorker);
    }

    /**
      NewDynPool starts the minimum number of workers, one by one, with three operations each; the
      workers started so far make the k-th of the given sequences of moves before the k-th operation.
     */
    constructor (c: Config, submitters: nat, closing: nat, meanwhile: seq<seq<(nat, WorkerOp)>>)
      requires c.Valid()
      ensures Valid() && fresh(front) && Settings() == c && Reaches(Steps(c), Init(c, submitters, closing), View())
      ensures meanwhile == [] ==> View() == Init(c, submitters, closing)
    {
      minWorkers, maxWorkers := c.min, c.max;
      front := new IntakeObject.Front(c.Front(), submitters, closing);
      counter, wg, workers, scale, finished := 0, 0, [], seq(submitters, i => Off), multiset{};
      new;
      var i := 0;
      ReachesRefl(BuildSteps(c), View());
      hide Step, Inv;
      while i < c.min
        invariant 0 <= i <= c.min && counter == wg == |workers| == i && Settings() == c
        invariant front.Settings() == c.Front()
        invariant Starting(submitters, closing)
        invariant meanwhile == [] ==> workers == seq(i, j => Select(false))
      {
        SpawnWorker(meanwhile, 3 * i, submitters, closing);
        i := i + 1;
      }
      ConstructionIsInitial(c, submitters, closing, View());
      DynPoolBounds.ReachableInv(c, submitters, closing, View());
    }

    lemma Kept(s: State, a: Action)
      requires Inv(Settings(), s) && Step(Settings(), s, a) == Some(View()) && front.Settings() == Settings().Front()
      ensures Valid()
    {
      InvStep(Settings(), s, a);
    }

    /** The next operation of a submitting call outside maybeScaleUp, which it enters after its send. */
    method Submit(i: nat, op: Intake.Op) returns (done: bool)
      requires Valid() && i < |scale| && !op.Meet?
      modifies this, front
      ensures Valid() && Made(old(View()), Admission(Intake.Submit(i, op)), done)
    {
      hide Intake.Inv, CountInv, FloorInv, Intake.Step;
      var leaving := front.subs[i].Post?;
      if leaving && !scale[i].AtEnd? {
        return false;
      }
      done := front.Submit(i, op);
      if done {
        Intake.StepFrame(Settings().Front(), old(front.View()), Intake.Submit(i, op));
        if leaving {
          scale := scale[i := Off];
        } else if front.subs[i].Post? {
          scale := scale[i := AtLoad];
        }
        Kept(old(View()), Admission(Intake.Submit(i, op)));
      }
    }

    /** The next operation of Close. */
    method Close(k: nat) returns (done: bool)
      requires Valid() && k < |front.closers|
      modifies front
      ensures Valid() && Made(old(View()), Admission(Intake.Close(k)), done)
    {
      hide Intake.Inv, CountInv, FloorInv, CallInv, Intake.Step;
      done := front.Close(k);
      if done {
        Kept(old(View()), Admission(Intake.Close(k)));
      }
    }

    /** An unbuffered send meets worker j in its select. */
    method HandOff(i: nat, j: nat) returns (done: bool)
      requires Valid() && i < |scale| && j < |workers|
      modifies this, front
      ensures Valid() && Made(old(View()), Meet(i, j), done)
    {
      hide Intake.Inv, CountInv, FloorInv, Intake.Step;
      if !front.subs[i].Sending? || !workers[j].Select? {
        return false;
      }
      var job := front.subs[i].job;
      done := front.Submit(i, Intake.Meet);
      if done {
        Intake.StepFrame(Settings().Front(), old(front.View()), Intake.Submit(i, Intake.Meet));
        workers := workers[j := Busy(job)];
        if front.subs[i].Post? {
          scale := scale[i := AtLoad];
        }
        Kept(old(View()), Meet(i, j));
      }
    }

    /** The next atomic operation of maybeScaleUp in goroutine i. */
    method MaybeScaleUp(i: nat) returns (done: bool)
      requires Valid() && i < |scale|
      modifies this
      ensures Valid() && Made(old(View()), ScaleGo(i), done)
    {
      hide Inv;
      done := !scale[i].Off? && !scale[i].AtEnd?;
      if !done {
        return;
      }
      match scale[i] {
      case AtLoad => scale := scale[i := if counter >= maxWorkers then AtEnd else AtLen];
      case AtLen => scale := scale[i := if |front.queue| > 0 then AtAdd else AtEnd];
      case AtAdd =>
        counter := counter + 1;
        scale := scale[i := if counter <= maxWorkers then AtWg else AtUndo];
      case AtWg => wg, scale := wg + 1, scale[i := AtGo];
      case AtGo => workers, scale := workers + [Select(false)], scale[i := AtEnd];
      case AtUndo => counter, scale := counter - 1, scale[i := AtEnd];
      }
      Kept(old(View()), ScaleGo(i));
    }

    /** The next operation of worker j. */
    method Work(j: nat, op: WorkerOp) returns (done: bool)
      requires Valid() && j < |workers|
      modifies this, front
      ensures Valid() && Made(old(View()), Action.Work(j, op), done)
    {
      hide Intake.Inv, CountInv, FloorInv, CallInv, Intake.Step;
      if workers[j].Select? && op.TakeJob? {
        var job;
        done, job := front.Receive();
        if done {
          workers := workers[j := Busy(job)];
        }
      } else {
        done := Move(j, op);
      }
      if done {
        Kept(old(View()), Action.Work(j, op));
      }
    }

    /** Wait returns when the WaitGroup is at zero: then no worker is left, and after Close no job is being run. */
    method Wait() returns (returned: bool)
      requires Valid()
      ensures returned ==> forall j :: 0 <= j < |workers| ==> workers[j].Gone?
      ensures !returned ==> Sum(Present, workers) + Sum(Announced, scale) > 0
    {
      returned := wg == 0;
      SumZero(Present, workers);
    }

    lemma NoSuchCloser(s: Intake.State, k: nat)
      requires k >= |s.closers|
      ensures Intake.Step(Settings().Front(), s, Intake.Close(k)).None?
    {
    }

    lemma NoSuchMeeting(s: State, i: nat, j: nat)
      requires i >= |s.scale| || j >= |s.pool.workers|
      ensures MeetStep(Settings(), s, i, j).None?
    {
    }

    /** The next operation of the goroutine the action names. */
    method Perform(a: Action) returns (done: bool)
      requires Valid()
      modifies this, front
      ensures Valid() && Made(old(View()), a, done)
    {
      hide Intake.Inv, CountInv, FloorInv, Intake.Step, MeetStep, ScaleStep, WorkStep;
      done := false;
      match a {
      case Admission(b) =>
        if b.Submit? && !b.op.Meet? && b.i < |scale| {
          done := Submit(b.i, b.op);
        } else if b.Close? {
          if b.k < |front.closers| {
            done := Close(b.k);
          } else {
            NoSuchCloser(front.View(), b.k);
          }
        }
      case Meet(i, j) =>
        if i < |scale| && j < |workers| {
          done := HandOff(i, j);
        } else {
          NoSuchMeeting(View(), i, j);
        }
      case ScaleGo(i) =>
        if i < |scale| {
          done := MaybeScaleUp(i);
        }
      case Work(j, op) =>
        if j < |workers| {
          done := Work(j, op);
        }
      }
    }
  }

  /**
    A pool under any schedule of its goroutines, up to the first operation that
    is blocked. So whatever is proved of the reachable states of DynPool holds
    of the object.
   */
  method Run(c: Config, submitters: nat, closing: nat, schedule: seq<Action>) returns (pool: DynamicPool, ran: nat)
    requires c.Valid()
    ensures fresh(pool) && pool.Valid() && ran <= |schedule|
    ensures Exec(Steps(c), Init(c, submitters, closing), schedule[..ran]) == Some(pool.View())
    ensures ran < |schedule| ==> Step(c, pool.View(), schedule[ran]).None?
  {
    pool := new DynamicPool(c, submitters, closing, []);
    hide Inv, Step, Init;
    ran := 0;
    while ran < |schedule|
      invariant ran <= |schedule| && fresh(pool) && fresh(pool.front) && pool.Valid() && pool.Settings() == c
      invariant Exec(Steps(c), Init(c, submitters, closing), schedule[..ran]) == Some(pool.View())
    {
      ExecNext(Steps(c), Init(c, submitters, closing), schedule, ran);
      var done := pool.Perform(schedule[ran]);
      if !done {
        return;
      }
      ran := ran + 1;
    }
  }
}
