/** The goroutines of an or-channel as the program runs them: each waits, then closes its orDone. */
module OrChannelObject {
  import opened Options
  import opened Runs
  import opened OrChannel

  class Goroutines {
    const waits: seq<seq<Chan>>
    ghost const ret: Option<Chan>
    var closed: set<nat>
    var level: seq<Status>

    ghost function Shape(): Net { Net(ret, waits) }

    ghost function View(): State
      reads this
    {
      State(closed, level)
    }

    ghost predicate Valid()
      reads this
    {
      |level| == |waits|
    }

    /** The outcome of one operation: the step the action makes from s, or none and no change. */
    ghost predicate Made(s: State, a: Action, done: bool)
      reads this
    {
      match Step(Shape(), s, a)
      case None => !done && View() == s
      case Some(t) => done && View() == t
    }

    constructor (net: Net)
      ensures Valid() && View() == Init(net) && Shape() == net
    {
      waits, ret, closed := net.waits, net.ret, {};
      level := seq(|net.waits|, k => if k == 0 then Started else Unstarted);
    }

    method IsShut(c: Chan) returns (shut: bool)
      ensures shut == IsClosed(View(), c)
    {
      match c
      case In(x) => shut := x in closed;
      case Own(k) => shut := k < |level| && level[k].Finished?;
    }

    /** An input is closed, or goroutine k evaluates its select, wakes on its j-th channel, or closes its orDone. */
    method Perform(a: Action) returns (done: bool)
      requires Valid()
      modifies this
      ensures Valid() && Made(old(View()), a, done)
    {
      done := true;
      match a {
      case CloseInput(x) => closed := closed + {x};
      case Evaluate(k) =>
        done := k < |level| && level[k].Started?;
        if done {
          level := level[k := Waiting];
          if k + 1 < |level| {
            level := level[k + 1 := Started];
          }
        }
      case Wake(k, j) =>
        done := k < |level| && level[k].Waiting? && j < |waits[k]|;
        if done {
          done := IsShut(waits[k][j]);
        }
        if done {
          level := level[k := Woken];
        }
      case Finish(k) =>
        done := k < |level| && level[k].Woken?;
        if done {
          level := level[k := Finished];
        }
      }
    }
  }

  /** The network of Or under any schedule, up to the first operation that is blocked. */
  method Run(xs: seq<nat>, schedule: seq<Action>) returns (network: Goroutines, ran: nat)
    ensures fresh(network) && network.Valid() && ran <= |schedule|
    ensures Exec(Steps(OrNet(xs)), Init(OrNet(xs)), schedule[..ran]) == Some(network.View())
    ensures ran < |schedule| ==> Step(OrNet(xs), network.View(), schedule[ran]).None?
  {
    var net := OrNet(xs);
    network := new Goroutines(net);
    hide Or, Step, Init;
    ran := 0;
    while ran < |schedule|
      invariant ran <= |schedule| && fresh(network) && network.Valid() && network.Shape() == net
      invariant Exec(Steps(net), Init(net), schedule[..ran]) == Some(network.View())
    {
      ExecNext(Steps(net), Init(net), schedule, ran);
      var done := network.Perform(schedule[ran]);
      if !done {
        return;
      }
      ran := ran + 1;
    }
  }
}
