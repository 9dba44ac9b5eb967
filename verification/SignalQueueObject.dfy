/** The queue and its condition variable as the program keeps them: items appended and re-sliced under the lock. */
module SignalQueueObject {
  import opened Options
  import opened Runs
  import opened SignalQueue

  /** A popper that has seen an item under the lock still has it there. */
  lemma TakeFacts(s: State, j: nat)
    requires Inv(s) && j < |s.poppers|
    ensures s.poppers[j].Take? ==> s.queue.items != []
  {
    hide LockInv, WakeInv;
  }

  /** One of the sleepers, if there is any, has been woken. */
  ghost predicate WokenOne(before: seq<Popper>, after: seq<Popper>) {
    if NobodySleeps(before) then after == before
    else exists j :: 0 <= j < |before| && before[j].Sleeping? && after == before[j := Woken]
  }

  class Queue {
    var lock: Holder
    var items: seq<int>
    var pushers: seq<Pusher>
    var poppers: seq<Popper>
    ghost var pushed: seq<int>
    ghost var popped: seq<int>

    ghost function View(): State
      reads this
    {
      State(lock, Items(items, pushed, popped), pushers, poppers)
    }

    ghost predicate Valid()
      reads this
    {
      Inv(View())
    }

    /** The outcome of one operation: the step the action makes from s, or none and no change. */
    ghost predicate Made(s: State, a: Action, done: bool)
      reads this
    {
      match Step(s, a)
      case None => !done && View() == s
      case Some(t) => done && View() == t
    }

    constructor (pushing: nat, popping: nat)
      ensures Valid() && View() == Init(pushing, popping)
    {
      lock, items := Free, [];
      pushers, poppers := seq(pushing, i => Idle), seq(popping, j => Away);
      pushed, popped := [], [];
      new;
      ReachesRefl(Steps(), Init(pushing, popping));
      ReachableInv(pushing, popping, Init(pushing, popping));
    }

    method FirstSleeper() returns (j: nat)
      ensures j <= |poppers| && (j < |poppers| ==> poppers[j].Sleeping?)
      ensures j == |poppers| ==> NobodySleeps(poppers)
    {
      j := 0;
      while j < |poppers| && !poppers[j].Sleeping?
        invariant j <= |poppers| && forall k :: 0 <= k < j ==> !poppers[k].Sleeping?
      {
        j := j + 1;
      }
    }

    /** The next operation of push in goroutine i; Signal with nobody to wake does nothing. */
    method Push(i: nat) returns (done: bool)
      requires Valid() && i < |pushers|
      modifies this
      ensures Valid() && Made(old(View()), Action.Push(i), done)
    {
      hide Inv;
      done := true;
      match pushers[i] {
      case Idle => done := false;
      case WantLock(v) =>
        done := lock.Free?;
        if done {
          lock, pushers := Pushing(i), pushers[i := Append(v)];
        }
      case Append(v) => items, pushed, pushers := items + [v], pushed + [v], pushers[i := Signal];
      case Signal =>
        var j := FirstSleeper();
        done := j == |poppers|;
        if done {
          pushers := pushers[i := Unlock];
        }
      case Unlock => lock, pushers := Free, pushers[i := Idle];
      }
      if done {
        InvStep(old(View()), Action.Push(i));
      }
    }

    /** Signal wakes the sleeper j. */
    method Wake(i: nat, j: nat) returns (done: bool)
      requires Valid()
      modifies this
      ensures Valid() && Made(old(View()), Action.Wake(i, j), done)
    {
      hide Inv;
      done := i < |pushers| && j < |poppers| && pushers[i].Signal? && poppers[j].Sleeping?;
      if done {
        pushers, poppers := pushers[i := Unlock], poppers[j := Woken];
        InvStep(old(View()), Action.Wake(i, j));
      }
    }

    method Lock(j: nat, again: bool) returns (done: bool)
      requires j < |poppers|
      modifies this`lock, this`poppers
      ensures done == old(lock).Free?
      ensures if done then lock == Popping(j) && poppers == old(poppers)[j := Check(again)] else View() == old(View())
    {
      done := lock.Free?;
      if done {
        lock, poppers := Popping(j), poppers[j := Check(again)];
      }
    }

    /** The next operation of pop in goroutine j: it checks the items again each time it has been woken. */
    method Pop(j: nat) returns (done: bool)
      requires Valid() && j < |poppers|
      modifies this
      ensures Valid() && Made(old(View()), Action.Pop(j), done)
    {
      TakeFacts(View(), j);
      hide Inv;
      done := true;
      match poppers[j] {
      case Away => done := false;
      case Sleeping => done := false;
      case Entering => done := Lock(j, false);
      case Woken => done := Lock(j, true);
      case Check(_) =>
        if items == [] {
          lock, poppers := Free, poppers[j := Sleeping];
        } else {
          poppers := poppers[j := Take];
        }
      case Take =>
        poppers, popped := poppers[j := Leave(items[0])], popped + [items[0]];
        items := items[1..];
      case Leave(_) => lock, poppers := Free, poppers[j := Away];
      }
      if done {
        InvStep(old(View()), Action.Pop(j));
      }
    }

    /** The next operation of the goroutine the action names, or a new call. */
    method Perform(a: Action) returns (done: bool)
      requires Valid()
      modifies this
      ensures Valid() && Made(old(View()), a, done)
    {
      hide Inv, PushStep, PopStep;
      done := false;
      match a {
      case CallPush(i, v) =>
        done := i < |pushers| && pushers[i].Idle?;
        if done {
          pushers := pushers[i := WantLock(v)];
          InvStep(old(View()), a);
        }
      case CallPop(j) =>
        done := j < |poppers| && poppers[j].Away?;
        if done {
          poppers := poppers[j := Entering];
          InvStep(old(View()), a);
        }
      case Push(i) =>
        if i < |pushers| {
          done := Push(i);
        }
      case Pop(j) =>
        if j < |poppers| {
          done := Pop(j);
        }
      case Wake(i, j) => done := Wake(i, j);
      }
    }
    /** The last two operations of an uninterrupted push. */
    method SignalAndUnlock(i: nat)
      requires Valid() && i < |pushers| && pushers[i].Signal?
      modifies this
      ensures Valid() && lock.Free? && pushers == old(pushers)[i := Idle]
      ensures items == old(items) && pushed == old(pushed) && popped == old(popped)
      ensures WokenOne(old(poppers), poppers)
    {
      hide Inv;
      var j := FirstSleeper();
      var done;
      if j < |poppers| { done := Wake(i, j); } else { done := Push(i); }
      done := Push(i);
      assert pushers == old(pushers)[i := Idle];
    }

    /** push from start to end, when nobody interferes: the value is appended, and one sleeper is woken. */
    method PushCall(i: nat, v: int)
      requires Valid() && i < |pushers| && pushers[i].Idle? && lock.Free?
      modifies this
      ensures Valid() && lock.Free? && pushers == old(pushers) && popped == old(popped)
      ensures items == old(items) + [v]
      ensures WokenOne(old(poppers), poppers)
    {
      hide Inv;
      var done := Perform(CallPush(i, v));
      done := Push(i);
      done := Push(i);
      assert pushers == old(pushers)[i := Signal];
      SignalAndUnlock(i);
      assert pushers == old(pushers);
    }

    /** pop, when nobody interferes, as far as it gets: it returns the oldest item, or sleeps on an empty queue. */
    method PopCall(j: nat) returns (got: Option<int>)
      requires Valid() && j < |poppers| && poppers[j].Away? && lock.Free?
      modifies this
      ensures Valid() && lock.Free? && pushers == old(pushers) && pushed == old(pushed)
      ensures got == if old(items) == [] then None else Some(old(items)[0])
      ensures items == if old(items) == [] then [] else old(items)[1..]
      ensures poppers == if old(items) == [] then old(poppers)[j := Sleeping] else old(poppers)
    {
      hide Inv;
      var done := Perform(CallPop(j));
      done := Pop(j);
      assert poppers == old(poppers)[j := Check(false)];
      done := Pop(j);
      if poppers[j].Sleeping? {
        assert poppers == old(poppers)[j := Sleeping];
        return None;
      }
      assert poppers == old(poppers)[j := Take];
      done := Pop(j);
      assert poppers == old(poppers)[j := Leave(old(items)[0])];
      got := Some(poppers[j].v);
      done := Pop(j);
      assert poppers == old(poppers);
    }
  }

  /** A queue under any schedule of its goroutines, up to the first operation that is blocked. */
  method Run(pushing: nat, popping: nat, schedule: seq<Action>) returns (queue: Queue, ran: nat)
    ensures fresh(queue) && queue.Valid() && ran <= |schedule|
    ensures Exec(Steps(), Init(pushing, popping), schedule[..ran]) == Some(queue.View())
    ensures ran < |schedule| ==> Step(queue.View(), schedule[ran]).None?
  {
    queue := new Queue(pushing, popping);
    hide Inv, Step, Init;
    ran := 0;
    while ran < |schedule|
      invariant ran <= |schedule| && fresh(queue) && queue.Valid()
      invariant Exec(Steps(), Init(pushing, popping), schedule[..ran]) == Some(queue.View())
    {
      ExecNext(Steps(), Init(pushing, popping), schedule, ran);
      var done := queue.Perform(schedule[ran]);
      if !done {
        return;
      }
      ran := ran + 1;
    }
  }
}
