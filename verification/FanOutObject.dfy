/**
  The fan-out as the program keeps it: workers around a shared input and output, and the WaitGroup
  that closes the output.
 */
module FanOutObject {
  import opened Options
  import opened Runs
  import opened FanOut

  class Stage {
    const size: nat
    const n: nat
    var cancelled: bool
    var inClosed: bool
    var outClosed: bool
    var wg: int
    var received: nat
    var out: seq<nat>
    var workers: seq<Worker>
    ghost var dropped: multiset<nat>

    ghost function Settings(): Config { Config(size, n) }

    ghost function View(): State
      reads this
    {
      State(cancelled, inClosed, outClosed, wg, Flow(received, out, dropped), workers, false)
    }

    ghost predicate Valid()
      reads this
    {
      Inv(Settings(), View())
    }

    /** The outcome of one operation: the step the action makes from s, or none and no change. */
    ghost predicate Made(s: State, a: Action, done: bool)
      reads this
    {
      match Step(Settings(), s, a)
      case None => !done && View() == s
      case Some(t) => done && View() == t
    }

    /** FanOut adds all its workers to the WaitGroup, then starts them. */
    constructor (c: Config)
      ensures Valid() && View() == Init(c) && Settings() == c
    {
      size, n := c.workers, c.n;
      cancelled, inClosed, outClosed := false, false, false;
      wg, received, out, workers, dropped := c.workers, 0, [], [], multiset{};
      new;
      var i := 0;
      while i < c.workers
        invariant 0 <= i <= c.workers && View() == Init(c).(workers := seq(i, j => Receiving))
      {
        workers := workers + [Receiving];
        i := i + 1;
      }
      ReachesRefl(Steps(c), Init(c));
      ReachableInv(c, Init(c));
    }

    method Move(j: nat, a: Action) returns (done: bool)
      requires j < |workers| && !a.Cancel? && !a.CloseInput? && !a.CloseOutput? && a.j == j
      requires workers[j].Gone? || !outClosed
      modifies this
      ensures Made(old(View()), a, done)
    {
      done := true;
      if workers[j].Receiving? && a.Receive? && received < n {
        received, workers := received + 1, workers[j := Sending(received)];
      } else if workers[j].Receiving? && ((a.SeeClosed? && inClosed) || (a.SeeCancel? && cancelled)) {
        wg, workers := wg - 1, workers[j := Gone];
      } else if workers[j].Sending? && a.Emit? {
        out, workers := out + [workers[j].k], workers[j := Receiving];
      } else if workers[j].Sending? && a.SeeCancel? && cancelled {
        dropped := dropped + multiset{workers[j].k};
        wg, workers := wg - 1, workers[j := Gone];
      } else {
        done := false;
      }
    }

    /** The next operation of worker j: its receive, its send, or its exit, which counts it off the WaitGroup. */
    method Work(j: nat, a: Action) returns (done: bool)
      requires Valid() && j < |workers| && !a.Cancel? && !a.CloseInput? && !a.CloseOutput? && a.j == j
      modifies this
      ensures Valid() && Made(old(View()), a, done)
    {
      OutOpen(Settings(), View(), j);
      hide Inv;
      done := Move(j, a);
      if done {
        hide Step;
        InvStep(Settings(), old(View()), a);
      }
    }

    /** The next operation of the goroutine the action names, of the source, or of whoever cancels. */
    method Perform(a: Action) returns (done: bool)
      requires Valid()
      modifies this
      ensures Valid() && Made(old(View()), a, done)
    {
      hide Inv, WorkStep;
      done := true;
      match a {
      case Cancel => cancelled := true;
      case CloseInput =>
        done := received == n && !inClosed;
        if done {
          inClosed := true;
        }
      case CloseOutput =>
        done := wg == 0 && !outClosed;
        if done {
          outClosed := true;
        }
      case _ =>
        if a.j < |workers| {
          done := Work(a.j, a);
        } else {
          done := false;
        }
      }
      if a.Cancel? || a.CloseInput? || a.CloseOutput? {
        if done {
          InvStep(Settings(), old(View()), a);
        }
      }
    }
  }

  /** A stage under any schedule of its goroutines, up to the first operation that is blocked. */
  method Run(c: Config, schedule: seq<Action>) returns (stage: Stage, ran: nat)
    ensures fresh(stage) && stage.Valid() && ran <= |schedule|
    ensures Exec(Steps(c), Init(c), schedule[..ran]) == Some(stage.View())
    ensures ran < |schedule| ==> Step(c, stage.View(), schedule[ran]).None?
  {
    stage := new Stage(c);
    hide Inv, Step, Init;
    ran := 0;
    while ran < |schedule|
      invariant ran <= |schedule| && fresh(stage) && stage.Valid() && stage.Settings() == c
      invariant Exec(Steps(c), Init(c), schedule[..ran]) == Some(stage.View())
    {
      ExecNext(Steps(c), Init(c), schedule, ran);
      var done := stage.Perform(schedule[ran]);
      if !done {
        return;
      }
      ran := ran + 1;
    }
  }
}
