/** The fixed pool as the program keeps it: its WaitGroup, workers and intake updated in place. */
module WorkerPoolObject {
  import opened Options
  import opened Runs
  import opened Sums
  import opened Bags
  import opened WorkerPool
  import Intake
  import IntakeObject

  // a worker the WaitGroup still waits for
  function Present(w: Worker): nat { if w.Gone? then 0 else 1 }

  class FixedPool {
    const size: nat
    const front: IntakeObject.Front
    var wg: int
    var workers: seq<Worker>
    ghost var finished: multiset<Intake.Job>

    ghost function Settings(): Config { Config(size, front.cap) }

    ghost function View(): State
      reads this, front
    {
      State(front.View(), workers, finished)
    }

    ghost predicate Valid()
      reads this, front
    {
      front.Settings() == Settings().Front() && Inv(Settings(), View()) && wg == Sum(Present, workers)
    }

    /** The outcome of one operation: the step the action makes from s, or none and no change. */
    ghost predicate Made(s: State, a: Action, done: bool)
      reads this, front
    {
      match Step(Settings(), s, a)
      case None => !done && View() == s
      case Some(t) => done && View() == t
    }

    constructor (c: Config, submitters: nat, closing: nat)
      ensures Valid() && fresh(front) && View() == Init(c, submitters, closing) && Settings() == c
    {
      size := c.workers;
      front := new IntakeObject.Front(c.Front(), submitters, closing);
      wg, workers, finished := 0, [], multiset{};
      new;
      hide Intake.Inv, Accounted;
      var i := 0;
      while i < c.workers
        invariant 0 <= i <= c.workers && workers == seq(i, j => Select) && finished == multiset{}
        invariant front.View() == Intake.Init(submitters, closing) && wg == Sum(Present, workers)
      {
        SumAppend(Present, workers, Select);
        wg, workers := wg + 1, workers + [Select];
        i := i + 1;
      }
      InitInv(c, submitters, closing);
    }

    lemma Kept(s: State, a: Action)
      requires Inv(Settings(), s) && Step(Settings(), s, a) == Some(View()) && front.Settings() == Settings().Front()
      requires wg == Sum(Present, workers)
      ensures Valid()
    {
      InvStep(Settings(), s, a);
    }

    /** The next operation of TrySubmit or SubmitWithContext. */
    method Submit(i: nat, op: Intake.Op) returns (done: bool)
      requires Valid() && i < |front.subs| && !op.Meet?
      modifies front
      ensures Valid() && Made(old(View()), Admission(Intake.Submit(i, op)), done)
    {
      hide Intake.Inv, Intake.Step, Accounted;
      done := front.Submit(i, op);
      if done {
        Kept(old(View()), Admission(Intake.Submit(i, op)));
      }
    }

    /** The next operation of Close. */
    method Close(k: nat) returns (done: bool)
      requires Valid() && k < |front.closers|
      modifies front
      ensures Valid() && Made(old(View()), Admission(Intake.Close(k)), done)
    {
      hide Intake.Inv, Intake.Step, Accounted;
      done := front.Close(k);
      if done {
        Kept(old(View()), Admission(Intake.Close(k)));
      }
    }

    /** An unbuffered send meets worker j in its select. */
    method HandOff(i: nat, j: nat) returns (done: bool)
      requires Valid() && i < |front.subs| && j < |workers|
      modifies this, front
      ensures Valid() && Made(old(View()), Meet(i, j), done)
    {
      hide Intake.Inv, Intake.Step, Accounted;
      if !front.subs[i].Sending? || !workers[j].Select? {
        return false;
      }
      var job := front.subs[i].job;
      done := front.Submit(i, Intake.Meet);
      if done {
        SumUpdate(Present, workers, j, Busy(job));
        workers := workers[j := Busy(job)];
        Kept(old(View()), Meet(i, j));
      }
    }

    /** A worker moves; on its way out it counts itself off the WaitGroup. */
    method SetWorker(j: nat, w: Worker)
      requires j < |workers| && !workers[j].Gone? && wg == Sum(Present, workers)
      modifies this`workers, this`wg
      ensures workers == old(workers)[j := w] && wg == Sum(Present, workers)
    {
      SumUpdate(Present, workers, j, w);
      workers := workers[j := w];
      if w.Gone? {
        wg := wg - 1;
      }
    }

    /** The next operation of worker j: a branch of its select, or the end of its job. */
    method Work(j: nat, op: WorkerOp) returns (done: bool)
      requires Valid() && j < |workers|
      modifies this, front
      ensures Valid() && Made(old(View()), Action.Work(j, op), done)
    {
      hide Intake.Inv, Intake.Step, Accounted;
      done := false;
      if workers[j].Select? {
        if op.TakeJob? {
          var job;
          done, job := front.Receive();
          if done {
            SetWorker(j, Busy(job));
          }
        } else if (op.SeeCancel? && front.cancelled) || (op.SeeClosed? && front.queueClosed && front.queue == []) {
          done := true;
          SetWorker(j, Gone);
        }
      } else if workers[j].Busy? && op.EndJob? {
        done := true;
        finished := finished + multiset{workers[j].job};
        SetWorker(j, Select);
      }
      if done {
        Kept(old(View()), Action.Work(j, op));
      }
    }

    /** Wait returns exactly when every worker has left. */
    method Wait() returns (returned: bool)
      requires Valid()
      ensures returned <==> forall j :: 0 <= j < |workers| ==> workers[j].Gone?
    {
      returned := wg == 0;
      SumZero(Present, workers);
    }

    /** The next operation of the goroutine the action names. */
    method Perform(a: Action) returns (done: bool)
      requires Valid()
      modifies this, front
      ensures Valid() && Made(old(View()), a, done)
    {
      hide Intake.Inv, Accounted, WorkStep;
      done := false;
      match a {
      case Admission(b) =>
        if b.Submit? && !b.op.Meet? && b.i < |front.subs| {
          done := Submit(b.i, b.op);
        } else if b.Close? && b.k < |front.closers| {
          done := Close(b.k);
        }
      case Meet(i, j) =>
        if i < |front.subs| && j < |workers| {
          done := HandOff(i, j);
        }
      case Work(j, op) =>
        if j < |workers| {
          done := Work(j, op);
        }
      }
    }
  }

  /** A pool under any schedule of its goroutines, up to the first operation that is blocked. */
  method Run(c: Config, submitters: nat, closing: nat, schedule: seq<Action>) returns (pool: FixedPool, ran: nat)
    ensures fresh(pool) && pool.Valid() && ran <= |schedule|
    ensures Exec(Steps(c), Init(c, submitters, closing), schedule[..ran]) == Some(pool.View())
    ensures ran < |schedule| ==> Step(c, pool.View(), schedule[ran]).None?
  {
    pool := new FixedPool(c, submitters, closing);
    hide Inv, Step, Init;
    ran := 0;
    while ran < |schedule|
      invariant ran <= |schedule| && fresh(pool) && fresh(pool.front) && pool.Valid() && pool.Settings() == c
      invariant Exec(Steps(c), Init(c, submitters, closing), schedule[..ran]) == Some(pool.View())
    {
      ExecNext(Steps(c), Init(c, submitters, closing), schedule, ran);
      var done := pool.Perform(schedule[ran]);
      if !done {
        return;
      }
      ran := ran + 1;
    }
  }
}
