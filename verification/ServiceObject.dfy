/** The service as the program keeps it: its channels, context, workers and callers updated in place. */
module ServiceObject {
  import opened Options
  import opened Runs
  import opened Service

  class JobService {
    const cap: nat
    const size: nat
    var closed: bool
    var jobsClosed: bool
    var cancelled: bool
    var queue: seq<int>
    var workers: seq<Worker>
    var callers: seq<Caller>
    var panicked: bool
    ghost var accepted: seq<int>
    ghost var taken: seq<int>
    ghost var processed: multiset<int>
    ghost var abandoned: multiset<int>
    ghost var endings: seq<Ending>

    ghost function Settings(): Config { Config(size, cap) }

    ghost function View(): State
      reads this
    {
      State(Gate(closed, jobsClosed, cancelled), Jobs(queue, accepted, taken, processed, abandoned),
            workers, callers, endings, panicked)
    }

    ghost predicate Valid()
      reads this
    {
      Inv(Settings(), View())
    }

    /** The outcome of one operation: the step the action makes from s, or none and no change. */
    ghost predicate Made(s: State, a: Action, done: bool)
      reads this
    {
      match Step(Settings(), s, a)
      case None => !done && View() == s
      case Some(t) => done && View() == t
    }

    /** NewService and start: one goroutine per worker. */
    constructor (c: Config, calling: nat)
      ensures Valid() && View() == Init(c, calling) && Settings() == c
    {
      cap, size := c.cap, c.workers;
      closed, jobsClosed, cancelled, panicked := false, false, false, false;
      queue, workers, callers := [], [], seq(calling, i => Idle);
      accepted, taken, processed, abandoned, endings := [], [], multiset{}, multiset{}, [];
      new;
      var i := 0;
      while i < c.workers
        invariant 0 <= i <= c.workers
        invariant View() == Init(c, calling).(workers := seq(i, j => Worker.Select))
      {
        workers := workers + [Worker.Select];
        i := i + 1;
      }
      InitInv(c, calling);
    }

    method Enter(i: nat, op: Op) returns (done: bool)
      requires !panicked && i < |callers| && callers[i].Idle?
      modifies this
      ensures Made(old(View()), Action.Call(i, op), done)
    {
      done := op.Submit? || op.Shutdown?;
      if done {
        callers := callers[i := if op.Submit? then SubCheck(op.job) else ShutCheck];
      }
    }

    /** Submit: the check of closed, then the non-blocking send, which panics on closed jobs. */
    method Submit(i: nat, op: Op) returns (done: bool)
      requires !panicked && i < |callers| && (callers[i].SubCheck? || callers[i].SubSend?)
      modifies this
      ensures Made(old(View()), Action.Call(i, op), done)
    {
      done := op.Go?;
      if !done {
        return;
      }
      var job := callers[i].job;
      if callers[i].SubCheck? {
        callers := callers[i := if closed then Idle else SubSend(job)];
      } else if jobsClosed {
        panicked := true;
      } else {
        if |queue| < cap {
          queue, accepted := queue + [job], accepted + [job];
        }
        callers := callers[i := Idle];
      }
    }

    /** What the goroutine that closes done waits for. */
    method AllExited() returns (all: bool)
      ensures all == Done(workers)
    {
      var j := 0;
      while j < |workers|
        invariant 0 <= j <= |workers| && forall k :: 0 <= k < j ==> workers[k].Exited?
      {
        if !workers[j].Exited? {
          return false;
        }
        j := j + 1;
      }
      return true;
    }

    /** The soft wait and the hard wait: for done, or for the timeout. */
    method Await(i: nat, op: Op) returns (done: bool)
      requires !panicked && i < |callers| && (callers[i].SoftWait? || callers[i].HardWait?)
      modifies this
      ensures Made(old(View()), Action.Call(i, op), done)
    {
      var soft := callers[i].SoftWait?;
      var drained := AllExited();
      done := true;
      if op.Go? && drained {
        callers, endings := callers[i := Idle], endings + [if soft then Drained else Joined];
      } else if soft && op.SoftTimeout? {
        callers := callers[i := Escalate];
      } else if !soft && op.HardTimeout? {
        callers, endings := callers[i := Idle], endings + [GaveUp];
      } else {
        done := false;
      }
    }

    /** Shutdown between its waits: closed, then jobs; later the cancellation. */
    method Shutdown(i: nat, op: Op) returns (done: bool)
      requires !panicked && i < |callers|
      requires callers[i].ShutCheck? || callers[i].ShutClosed? || callers[i].ShutJobs? || callers[i].Escalate?
      modifies this
      ensures Made(old(View()), Action.Call(i, op), done)
    {
      done := op.Go?;
      if !done {
        return;
      }
      match callers[i]
      case ShutCheck => callers := callers[i := if closed then SoftWait else ShutClosed];
      case ShutClosed =>
        panicked := closed;
        if !closed {
          closed, callers := true, callers[i := ShutJobs];
        }
      case ShutJobs =>
        panicked := jobsClosed;
        if !jobsClosed {
          jobsClosed, callers := true, callers[i := SoftWait];
        }
      case Escalate => cancelled, callers := true, callers[i := HardWait];
    }

    /** The next operation of a Submit or Shutdown in goroutine i. */
    method Call(i: nat, op: Op) returns (done: bool)
      requires Valid() && !panicked && i < |callers|
      modifies this
      ensures Valid() && Made(old(View()), Action.Call(i, op), done)
    {
      hide Inv, Done;
      match callers[i] {
      case Idle => done := Enter(i, op);
      case SubCheck(_) => done := Submit(i, op);
      case SubSend(_) => done := Submit(i, op);
      case SoftWait => done := Await(i, op);
      case HardWait => done := Await(i, op);
      case _ => done := Shutdown(i, op);
      }
      if done {
        hide Step;
        InvStep(Settings(), old(View()), Action.Call(i, op));
      }
    }

    /** Submit from start to end, when nobody interferes: what it returns, and the whole effect it has. */
    method SubmitCall(i: nat, job: int) returns (accept: bool)
      requires Valid() && !panicked && i < |callers| && callers[i].Idle? && (closed || !jobsClosed)
      modifies this
      ensures Valid() && !panicked && callers == old(callers)
      ensures accept == (!closed && |old(queue)| < cap)
      ensures queue == if accept then old(queue) + [job] else old(queue)
      ensures accepted == if accept then old(accepted) + [job] else old(accepted)
      ensures unchanged(this`closed, this`jobsClosed, this`cancelled, this`workers, this`taken, this`processed,
                        this`abandoned, this`endings)
    {
      hide Inv;
      accept := !closed && |queue| < cap;
      var done := Call(i, Op.Submit(job));
      done := Call(i, Go);
      assert callers == old(callers)[i := if closed then Idle else SubSend(job)];
      if !closed {
        done := Call(i, Go);
      }
      assert callers == old(callers);
    }

    /** An unbuffered send meets worker j in its select. */
    method HandOff(i: nat, j: nat) returns (done: bool)
      requires Valid() && !panicked
      modifies this
      ensures Valid() && Made(old(View()), Meet(i, j), done)
    {
      hide Inv;
      done := i < |callers| && j < |workers| && callers[i].SubSend? && workers[j].Select? && !jobsClosed
              && cap == 0 && queue == [];
      if done {
        var job := callers[i].job;
        callers, workers := callers[i := Idle], workers[j := Working(job)];
        accepted, taken := accepted + [job], taken + [job];
        InvStep(Settings(), old(View()), Meet(i, j));
      }
    }

    /** The next operation of worker j: a branch of one of its two selects. */
    method Work(j: nat, branch: Branch) returns (done: bool)
      requires Valid() && !panicked && j < |workers|
      modifies this
      ensures Valid() && Made(old(View()), Action.Work(j, branch), done)
    {
      hide Inv;
      done := !workers[j].Exited?;
      if workers[j].Select? {
        if branch.SeeCancel? && cancelled {
          workers := workers[j := Exited];
        } else if branch.Receive? && queue != [] {
          workers := workers[j := Working(queue[0])];
          queue, taken := queue[1..], taken + [queue[0]];
        } else if branch.Receive? && jobsClosed {
          workers := workers[j := Exited];
        } else {
          done := false;
        }
      } else if workers[j].Working? {
        var job := workers[j].job;
        if branch.SeeCancel? && cancelled {
          workers, abandoned := workers[j := Exited], abandoned + multiset{job};
        } else if branch.StepDone? {
          workers, processed := workers[j := Worker.Select], processed + multiset{job};
        } else {
          done := false;
        }
      }
      if done {
        InvStep(Settings(), old(View()), Action.Work(j, branch));
      }
    }

    /** The next operation of the goroutine the action names. */
    method Perform(a: Action) returns (done: bool)
      requires Valid()
      modifies this
      ensures Valid() && Made(old(View()), a, done)
    {
      hide Inv, CallStep, WorkStep;
      done := false;
      if panicked {
        return;
      }
      match a {
      case Call(i, op) =>
        if i < |callers| {
          done := Call(i, op);
        }
      case Meet(i, j) => done := HandOff(i, j);
      case Work(j, branch) =>
        if j < |workers| {
          done := Work(j, branch);
        }
      }
    }
  }

  /** A service under any schedule of its goroutines, up to the first operation that is blocked. */
  method Run(c: Config, calling: nat, schedule: seq<Action>) returns (service: JobService, ran: nat)
    ensures fresh(service) && service.Valid() && ran <= |schedule|
    ensures Exec(Steps(c), Init(c, calling), schedule[..ran]) == Some(service.View())
    ensures ran < |schedule| ==> Step(c, service.View(), schedule[ran]).None?
  {
    service := new JobService(c, calling);
    hide Inv, Step, Init;
    ran := 0;
    while ran < |schedule|
      invariant ran <= |schedule| && fresh(service) && service.Valid() && service.Settings() == c
      invariant Exec(Steps(c), Init(c, calling), schedule[..ran]) == Some(service.View())
    {
      ExecNext(Steps(c), Init(c, calling), schedule, ran);
      var done := service.Perform(schedule[ran]);
      if !done {
        return;
      }
      ran := ran + 1;
    }
  }
}
