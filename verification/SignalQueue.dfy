/**
  A queue guarded by a condition variable: push appends and signals one
  waiter, pop waits while the queue is empty. Any number of goroutines push and
  pop; one action per lock operation, test, signal and change of the items.
 */
module SignalQueue {
  import opened Options
  import opened Runs
  import opened Sums
  import opened Bags

  /** A pushing goroutine; it holds the lock from Append to Unlock. */
  datatype Pusher = Idle | WantLock(v: int) | Append(v: int) | Signal | Unlock {
    predicate HoldsLock() { Append? || Signal? || Unlock? }
  }

  /**
    A popping goroutine; it holds the lock at Check, Take and Leave. Sleeping
    is inside Wait, with the lock released; Woken has been signalled and wants
    the lock back, to check again.
   */
  datatype Popper = Away | Entering | Check(again: bool) | Sleeping | Woken | Take | Leave(v: int) {
    predicate HoldsLock() { Check? || Take? || Leave? }
  }

  datatype Holder = Free | Pushing(i: nat) | Popping(j: nat)

  // pushed, popped: history, in order
  datatype Items = Items(items: seq<int>, pushed: seq<int>, popped: seq<int>)

  datatype State = State(lock: Holder, queue: Items, pushers: seq<Pusher>, poppers: seq<Popper>)

  datatype Action =
    | CallPush(i: nat, v: int)
    | Push(i: nat)              // the next step of push; at Signal only if nobody sleeps
    | Wake(i: nat, j: nat)      // Signal wakes the sleeper j
    | CallPop(j: nat)
    | Pop(j: nat)               // the next step of pop

  function Init(pushers: nat, poppers: nat): State {
    State(Free, Items([], [], []), seq(pushers, i => Idle), seq(poppers, j => Away))
  }

  predicate NobodySleeps(poppers: seq<Popper>) {
    forall j :: 0 <= j < |poppers| ==> !poppers[j].Sleeping?
  }

  function PushStep(s: State, i: nat): Option<State>
    requires i < |s.pushers|
  {
    var q := s.queue;
    match s.pushers[i]
    case Idle => None
    case WantLock(v) =>
      if s.lock.Free? then Some(s.(lock := Pushing(i), pushers := s.pushers[i := Append(v)])) else None
    case Append(v) =>
      Some(s.(queue := q.(items := q.items + [v], pushed := q.pushed + [v]), pushers := s.pushers[i := Signal]))
    case Signal => if NobodySleeps(s.poppers) then Some(s.(pushers := s.pushers[i := Unlock])) else None
    case Unlock => Some(s.(lock := Free, pushers := s.pushers[i := Idle]))
  }

  function PopStep(s: State, j: nat): Option<State>
    requires j < |s.poppers|
  {
    var q := s.queue;
    match s.poppers[j]
    case Away => None
    case Entering =>
      if s.lock.Free? then Some(s.(lock := Popping(j), poppers := s.poppers[j := Check(false)])) else None
    case Check(_) =>
      // Wait joins the waiters before it releases the lock
      if q.items == [] then Some(s.(lock := Free, poppers := s.poppers[j := Sleeping]))
      else Some(s.(poppers := s.poppers[j := Take]))
    case Sleeping => None
    case Woken =>
      if s.lock.Free? then Some(s.(lock := Popping(j), poppers := s.poppers[j := Check(true)])) else None
    case Take =>
      if q.items == [] then None
      else Some(s.(queue := q.(items := q.items[1..], popped := q.popped + [q.items[0]]),
                   poppers := s.poppers[j := Leave(q.items[0])]))
    case Leave(_) => Some(s.(lock := Free, poppers := s.poppers[j := Away]))
  }

  function Step(s: State, a: Action): Option<State> {
    match a
    case CallPush(i, v) =>
      if i < |s.pushers| && s.pushers[i].Idle? then Some(s.(pushers := s.pushers[i := WantLock(v)])) else None
    case Push(i) => if i < |s.pushers| then PushStep(s, i) else None
    case Wake(i, j) =>
      if i < |s.pushers| && j < |s.poppers| && s.pushers[i].Signal? && s.poppers[j].Sleeping? then
        Some(s.(pushers := s.pushers[i := Unlock], poppers := s.poppers[j := Woken]))
      else None
    case CallPop(j) =>
      if j < |s.poppers| && s.poppers[j].Away? then Some(s.(poppers := s.poppers[j := Entering])) else None
    case Pop(j) => if j < |s.poppers| then PopStep(s, j) else None
  }

  function Steps(): (State, Action) -> Option<State> {
    (s, a) => Step(s, a)
  }

  // ---- the invariant ----

  ghost predicate LockInv(lock: Holder, pushers: seq<Pusher>, poppers: seq<Popper>) {
    && (forall i :: 0 <= i < |pushers| ==> (pushers[i].HoldsLock() <==> lock == Pushing(i)))
    && (forall j :: 0 <= j < |poppers| ==> (poppers[j].HoldsLock() <==> lock == Popping(j)))
    && (lock.Pushing? ==> lock.i < |pushers|)
    && (lock.Popping? ==> lock.j < |poppers|)
  }

  ghost predicate OrderInv(q: Items, poppers: seq<Popper>) {
    && q.popped + q.items == q.pushed
    && (forall j :: 0 <= j < |poppers| && poppers[j].Take? ==> q.items != [])
    && (forall j :: 0 <= j < |poppers| && poppers[j].Leave? ==>
          q.popped != [] && poppers[j].v == q.popped[|q.popped| - 1])
  }

  // poppers that are up and will look at the queue (again) or take from it
  function Awake(x: Popper): nat { if x.Woken? || (x.Check? && x.again) || x.Take? then 1 else 0 }
  function Asleep(x: Popper): nat { if x.Sleeping? then 1 else 0 }
  // pushers that have appended and not yet signalled
  function Signalling(x: Pusher): nat { if x.Signal? then 1 else 0 }

  /** While somebody sleeps, every item is spoken for. */
  ghost predicate WakeInv(q: Items, pushers: seq<Pusher>, poppers: seq<Popper>) {
    Sum(Asleep, poppers) > 0 ==> |q.items| <= Sum(Awake, poppers) + Sum(Signalling, pushers)
  }

  ghost predicate Inv(s: State) {
    && LockInv(s.lock, s.pushers, s.poppers)
    && OrderInv(s.queue, s.poppers)
    && WakeInv(s.queue, s.pushers, s.poppers)
  }

  lemma PopperSums(poppers: seq<Popper>, j: nat, x: Popper)
    requires j < |poppers|
    ensures Sum(Awake, poppers[j := x]) == Sum(Awake, poppers) - Awake(poppers[j]) + Awake(x)
    ensures Sum(Asleep, poppers[j := x]) == Sum(Asleep, poppers) - Asleep(poppers[j]) + Asleep(x)
  {
    SumUpdate(Awake, poppers, j, x);
    SumUpdate(Asleep, poppers, j, x);
  }

  lemma PopWake(s: State, j: nat)
    requires OrderInv(s.queue, s.poppers) && WakeInv(s.queue, s.pushers, s.poppers)
    requires j < |s.poppers| && PopStep(s, j).Some?
    ensures var t := PopStep(s, j).value; WakeInv(t.queue, t.pushers, t.poppers)
  {
    PopperSums(s.poppers, j, PopStep(s, j).value.poppers[j]);
  }

  lemma PushWake(s: State, i: nat)
    requires WakeInv(s.queue, s.pushers, s.poppers) && i < |s.pushers| && PushStep(s, i).Some?
    ensures var t := PushStep(s, i).value; WakeInv(t.queue, t.pushers, t.poppers)
  {
    SumUpdate(Signalling, s.pushers, i, PushStep(s, i).value.pushers[i]);
    if s.pushers[i].Signal? { SumZero(Asleep, s.poppers); }
  }

  lemma WakeStep(s: State, a: Action)
    requires OrderInv(s.queue, s.poppers) && WakeInv(s.queue, s.pushers, s.poppers) && Step(s, a).Some?
    ensures var t := Step(s, a).value; WakeInv(t.queue, t.pushers, t.poppers)
  {
    hide PopStep, PushStep, OrderInv;
    match a
    case Pop(j) => PopWake(s, j);
    case Push(i) => PushWake(s, i);
    case CallPush(i, v) => SumUpdate(Signalling, s.pushers, i, WantLock(v));
    case CallPop(j) => PopperSums(s.poppers, j, Entering);
    case Wake(i, j) =>
      SumUpdate(Signalling, s.pushers, i, Unlock);
      PopperSums(s.poppers, j, Woken);
  }

  lemma LockStep(s: State, a: Action)
    requires LockInv(s.lock, s.pushers, s.poppers) && Step(s, a).Some?
    ensures var t := Step(s, a).value; LockInv(t.lock, t.pushers, t.poppers)
  {
  }

  lemma OrderStep(s: State, a: Action)
    requires LockInv(s.lock, s.pushers, s.poppers) && OrderInv(s.queue, s.poppers) && Step(s, a).Some?
    ensures var t := Step(s, a).value; OrderInv(t.queue, t.poppers)
  {
  }

  lemma InvStep(s: State, a: Action)
    requires Inv(s) && Step(s, a).Some?
    ensures Inv(Step(s, a).value)
  {
    hide LockInv, OrderInv, WakeInv, Step;
    LockStep(s, a);
    OrderStep(s, a);
    WakeStep(s, a);
  }

  lemma ReachableInv(pushers: nat, poppers: nat, s: State)
    requires Reaches(Steps(), Init(pushers, poppers), s)
    ensures Inv(s)
  {
    forall x, a | Inv(x) && Steps()(x, a).Some?
      ensures Inv(Steps()(x, a).value)
    {
      InvStep(x, a);
    }
    SumZero(Asleep, Init(pushers, poppers).poppers);
    ReachesInductive(Steps(), Inv, Init(pushers, poppers), s);
  }

  // ---- what it promises ----

  function Rewoken(x: Popper): nat { if x.Woken? then 1 else 0 }

  /**
    First in, first out; and whenever the lock is free and somebody sleeps, enough woken poppers are on
    their way.
   */
  lemma NoWakeUpIsLost(pushers: nat, poppers: nat, s: State)
    requires Reaches(Steps(), Init(pushers, poppers), s)
    ensures s.queue.popped + s.queue.items == s.queue.pushed
    ensures forall j :: 0 <= j < |s.poppers| && s.poppers[j].Leave? ==>
      s.queue.popped != [] && s.poppers[j].v == s.queue.popped[|s.queue.popped| - 1]
    ensures s.lock.Free? && !NobodySleeps(s.poppers) ==> |s.queue.items| <= Sum(Rewoken, s.poppers)
  {
    ReachableInv(pushers, poppers, s);
    SumZero(Asleep, s.poppers);
    if s.lock.Free? {
      SumMonotone(Awake, Rewoken, s.poppers);
      SumZero(Signalling, s.pushers);
    }
  }

  predicate Internal(a: Action) { a.Push? || a.Wake? || a.Pop? }

  /** No call in progress can move. */
  ghost predicate AtRest(s: State) {
    forall a :: Internal(a) ==> Step(s, a).None?
  }

  lemma HolderMoves(s: State)
    requires Inv(s) && !s.lock.Free?
    ensures !AtRest(s)
  {
    if s.lock.Pushing? {
      var i := s.lock.i;
      assert Internal(Push(i));
      if s.pushers[i].Signal? && !NobodySleeps(s.poppers) {
        var j :| 0 <= j < |s.poppers| && s.poppers[j].Sleeping?;
        assert Internal(Wake(i, j));
        assert Step(s, Wake(i, j)).Some?;
      } else {
        assert Step(s, Push(i)).Some?;
      }
    } else {
      var j := s.lock.j;
      assert Internal(Pop(j));
      assert Step(s, Pop(j)).Some?;
    }
  }

  /** An item and a sleeper never coexist with nobody able to run; at rest only sleepers are left in their calls. */
  lemma RestMeansEmptyOrNobody(pushers: nat, poppers: nat, s: State)
    requires Reaches(Steps(), Init(pushers, poppers), s) && AtRest(s)
    ensures s.queue.items == [] || NobodySleeps(s.poppers)
    ensures s.lock.Free?
    ensures forall i :: 0 <= i < |s.pushers| ==> s.pushers[i].Idle?
    ensures forall j :: 0 <= j < |s.poppers| ==> s.poppers[j].Away? || s.poppers[j].Sleeping?
  {
    ReachableInv(pushers, poppers, s);
    if !s.lock.Free? { HolderMoves(s); }
    NoWakeUpIsLost(pushers, poppers, s);
    forall i: nat | i < |s.pushers| ensures s.pushers[i].Idle? {
      assert Internal(Push(i));
    }
    forall j: nat | j < |s.poppers| ensures s.poppers[j].Away? || s.poppers[j].Sleeping? {
      assert Internal(Pop(j));
    }
    SumZero(Rewoken, s.poppers);
  }

  // ---- calls in progress come to rest ----

  function PushRank(x: Pusher): nat {
    match x case Idle => 0 case WantLock(_) => 8 case Append(_) => 7 case Signal => 6 case Unlock => 1
  }
  function PopRank(x: Popper): nat {
    match x
    case Away => 0 case Entering => 4 case Check(_) => 3 case Sleeping => 0 case Woken => 4 case Take => 2 case Leave(_) => 1
  }

  function StepsLeft(s: State): nat { Sum(PushRank, s.pushers) + Sum(PopRank, s.poppers) }

  lemma PushUsesUp(s: State, i: nat)
    requires i < |s.pushers| && PushStep(s, i).Some?
    ensures StepsLeft(PushStep(s, i).value) < StepsLeft(s)
  {
    SumUpdate(PushRank, s.pushers, i, PushStep(s, i).value.pushers[i]);
  }

  lemma PopUsesUp(s: State, j: nat)
    requires j < |s.poppers| && PopStep(s, j).Some?
    ensures StepsLeft(PopStep(s, j).value) < StepsLeft(s)
  {
    SumUpdate(PopRank, s.poppers, j, PopStep(s, j).value.poppers[j]);
  }

  /** Every step of a call in progress uses up what the calls have left; a wake-up is paid for by its push. */
  lemma StepUsesUp(s: State, a: Action)
    requires Internal(a) && Step(s, a).Some?
    ensures StepsLeft(Step(s, a).value) < StepsLeft(s)
  {
    hide PushStep, PopStep;
    match a
    case Push(i) => PushUsesUp(s, i);
    case Pop(j) => PopUsesUp(s, j);
    case Wake(i, j) =>
      SumUpdate(PushRank, s.pushers, i, Unlock);
      SumUpdate(PopRank, s.poppers, j, Woken);
  }

  function InternalSteps(run: seq<Action>): nat {
    if run == [] then 0 else (if Internal(run[0]) then 1 else 0) + InternalSteps(run[1..])
  }

  /** What the calls begun in a run may cost: 8 steps for a push, which may wake a popper, and 4 for a pop. */
  function CallCost(a: Action): nat { if a.CallPush? then 8 else if a.CallPop? then 4 else 0 }

  function Calls(run: seq<Action>): nat {
    if run == [] then 0 else CallCost(run[0]) + Calls(run[1..])
  }

  lemma CallAdds(s: State, a: Action)
    requires !Internal(a) && Step(s, a).Some?
    ensures StepsLeft(Step(s, a).value) == StepsLeft(s) + CallCost(a)
  {
    match a
    case CallPush(i, v) => SumUpdate(PushRank, s.pushers, i, WantLock(v));
    case CallPop(j) => SumUpdate(PopRank, s.poppers, j, Entering);
  }

  lemma {:induction false} RunUsesUp(s: State, run: seq<Action>, t: State)
    requires Exec(Steps(), s, run) == Some(t)
    ensures InternalSteps(run) + StepsLeft(t) <= StepsLeft(s) + Calls(run)
    decreases |run|
  {
    if run != [] {
      if Internal(run[0]) { StepUsesUp(s, run[0]); } else { CallAdds(s, run[0]); }
      hide StepsLeft, Step;
      RunUsesUp(Step(s, run[0]).value, run[1..], t);
    }
  }

  /**
    Nobody goes round in circles: in every run, waiting and barging included, calls take a bounded
    number of steps each.
   */
  lemma EveryRunEnds(pushers: nat, poppers: nat, run: seq<Action>, t: State)
    requires Exec(Steps(), Init(pushers, poppers), run) == Some(t)
    ensures InternalSteps(run) <= Calls(run)
  {
    SumConstant(PushRank, Init(pushers, poppers).pushers, 0);
    SumConstant(PopRank, Init(pushers, poppers).poppers, 0);
    RunUsesUp(Init(pushers, poppers), run, t);
  }

  // ---- what goes in is what push was called with, and as many calls of pop return as can ----

  /** The values that push has been called with, in order. */
  function Asked(run: seq<Action>): seq<int> {
    if run == [] then []
    else Asked(run[..|run| - 1]) + (if run[|run| - 1].CallPush? then [run[|run| - 1].v] else [])
  }

  function PopCall(a: Action): nat { if a.CallPop? then 1 else 0 }
  function PopCalls(run: seq<Action>): nat { Sum(PopCall, run) }

  // what a pusher has not put into the queue yet
  function Held(x: Pusher): multiset<int> { if x.WantLock? || x.Append? then multiset{x.v} else multiset{} }
  function HeldLast(x: Pusher): seq<int> { if x.WantLock? || x.Append? then [x.v] else [] }
  // a call of pop that has not taken an item yet
  function Wanting(x: Popper): nat { if x.Away? || x.Leave? then 0 else 1 }

  /** Every value push was called with is in the queue's history or with its pusher. */
  ghost predicate ValuesRecorded(run: seq<Action>, s: State) {
    Accounted(Held, Asked(run), multiset(s.queue.pushed), s.pushers)
  }

  /** Every call of pop has its item or still wants one. */
  ghost predicate PopsRecorded(run: seq<Action>, s: State) {
    PopCalls(run) == |s.queue.popped| + Sum(Wanting, s.poppers)
  }

  /** A single pusher appends in the order of its calls. */
  ghost predicate OrderRecorded(run: seq<Action>, s: State) {
    |s.pushers| == 1 ==> Asked(run) == s.queue.pushed + HeldLast(s.pushers[0])
  }

  ghost predicate Recorded(run: seq<Action>, s: State) {
    ValuesRecorded(run, s) && PopsRecorded(run, s) && OrderRecorded(run, s)
  }

  lemma AskedNext(run: seq<Action>, a: Action)
    ensures Asked(run + [a]) == Asked(run) + (if a.CallPush? then [a.v] else [])
    ensures PopCalls(run + [a]) == PopCalls(run) + PopCall(a)
  {
    assert (run + [a])[..|run|] == run;
    SumAppend(PopCall, run, a);
  }

  lemma PopFrame(s: State, j: nat)
    requires j < |s.poppers| && PopStep(s, j).Some?
    ensures var t := PopStep(s, j).value; t.pushers == s.pushers && t.queue.pushed == s.queue.pushed
  {
  }

  lemma PushFrame(s: State, i: nat)
    requires i < |s.pushers| && PushStep(s, i).Some?
    ensures var t := PushStep(s, i).value;
      && t.queue.popped == s.queue.popped && t.poppers == s.poppers && |t.pushers| == |s.pushers|
      && t.queue.pushed + HeldLast(t.pushers[i]) == s.queue.pushed + HeldLast(s.pushers[i])
  {
  }

  lemma PushValues(run: seq<Action>, s: State, i: nat)
    requires ValuesRecorded(run, s) && i < |s.pushers| && PushStep(s, i).Some?
    ensures ValuesRecorded(run, PushStep(s, i).value)
  {
    hide Accounted;
    var q, x := s.queue.pushed, PushStep(s, i).value.pushers[i];
    if s.pushers[i].Append? {
      PutDown(Held, Asked(run), multiset(q), s.pushers, i, x);
      assert multiset(q + [s.pushers[i].v]) == multiset(q) + multiset{s.pushers[i].v};
    } else {
      Carry(Held, Asked(run), multiset(q), s.pushers, i, x);
    }
  }

  lemma ValuesStep(run: seq<Action>, s: State, a: Action)
    requires ValuesRecorded(run, s) && Step(s, a).Some?
    ensures ValuesRecorded(run + [a], Step(s, a).value)
  {
    AskedNext(run, a);
    hide Accounted, PushStep, PopStep, Asked;
    var q := multiset(s.queue.pushed);
    if a.CallPush? {
      PickUp(Held, Asked(run), q, s.pushers, a.i, WantLock(a.v), a.v);
    } else {
      assert Asked(run + [a]) == Asked(run);
      match a
      case Push(i) => PushValues(run, s, i);
      case Pop(j) => PopFrame(s, j);
      case Wake(i, _) => Carry(Held, Asked(run), q, s.pushers, i, Unlock);
      case CallPop(_) =>
    }
  }

  lemma PopWanting(s: State, j: nat)
    requires j < |s.poppers| && PopStep(s, j).Some?
    ensures var t := PopStep(s, j).value;
      |t.queue.popped| + Sum(Wanting, t.poppers) == |s.queue.popped| + Sum(Wanting, s.poppers)
  {
    SumUpdate(Wanting, s.poppers, j, PopStep(s, j).value.poppers[j]);
  }

  lemma PopsStep(run: seq<Action>, s: State, a: Action)
    requires PopsRecorded(run, s) && Step(s, a).Some?
    ensures PopsRecorded(run + [a], Step(s, a).value)
  {
    AskedNext(run, a);
    hide PushStep, PopStep, PopCalls;
    match a
    case Push(i) => PushFrame(s, i);
    case CallPop(j) => SumUpdate(Wanting, s.poppers, j, Entering);
    case Pop(j) => PopWanting(s, j);
    case Wake(i, j) => SumUpdate(Wanting, s.poppers, j, Woken);
    case _ =>
  }

  lemma PushOrderStep(run: seq<Action>, s: State, a: Action)
    requires OrderRecorded(run, s) && Step(s, a).Some?
    ensures OrderRecorded(run + [a], Step(s, a).value)
  {
    AskedNext(run, a);
    hide PushStep, PopStep, Asked;
    match a
    case Push(i) => PushFrame(s, i);
    case Pop(j) => PopFrame(s, j);
    case _ =>
  }

  lemma RunRecorded(pushers: nat, poppers: nat, run: seq<Action>, s: State)
    requires Exec(Steps(), Init(pushers, poppers), run) == Some(s)
    ensures Recorded(run, s)
  {
    var s0 := Init(pushers, poppers);
    BagEmpty(Held, s0.pushers);
    SumConstant(Wanting, s0.poppers, 0);
    assert Recorded([], s0);
    hide ValuesRecorded, PopsRecorded, OrderRecorded, Step;
    forall h, x, a | Recorded(h, x) && Steps()(x, a).Some?
      ensures Recorded(h + [a], Steps()(x, a).value)
    {
      ValuesStep(h, x, a);
      PopsStep(h, x, a);
      PushOrderStep(h, x, a);
    }
    HistoryHolds(Steps(), Recorded, s0, run, s);
  }

  lemma PushersKept(pushers: nat, poppers: nat, s: State)
    requires Reaches(Steps(), Init(pushers, poppers), s)
    ensures |s.pushers| == pushers
  {
    var kept := (x: State) => |x.pushers| == pushers;
    forall x, a | kept(x) && Steps()(x, a).Some?
      ensures kept(Steps()(x, a).value)
    {
    }
    ReachesInductive(Steps(), kept, Init(pushers, poppers), s);
  }

  /**
    Over every run: what has been popped and what is left are the values push was called with, less those of
    calls that have not got to their append; for a single pusher in the order of its calls.
   */
  lemma PushedAreAsked(pushers: nat, poppers: nat, run: seq<Action>, s: State)
    requires Exec(Steps(), Init(pushers, poppers), run) == Some(s)
    ensures multiset(Asked(run)) == multiset(s.queue.popped + s.queue.items) + Bag(Held, s.pushers)
    ensures pushers == 1 ==> s.queue.popped + s.queue.items <= Asked(run)
  {
    RunRecorded(pushers, poppers, run, s);
    assert Reaches(Steps(), Init(pushers, poppers), s);
    ReachableInv(pushers, poppers, s);
    PushersKept(pushers, poppers, s);
  }

  /**
    When the calls have come to rest every pushed value is popped or in the queue, and as many calls of pop
    have got a value as there are values and calls.
   */
  lemma RestMeansDelivered(pushers: nat, poppers: nat, run: seq<Action>, s: State)
    requires Exec(Steps(), Init(pushers, poppers), run) == Some(s) && AtRest(s)
    ensures multiset(s.queue.popped + s.queue.items) == multiset(Asked(run))
    ensures pushers == 1 ==> s.queue.popped + s.queue.items == Asked(run)
    ensures |s.queue.popped| == if |Asked(run)| <= PopCalls(run) then |Asked(run)| else PopCalls(run)
  {
    RunRecorded(pushers, poppers, run, s);
    PushedAreAsked(pushers, poppers, run, s);
    assert Reaches(Steps(), Init(pushers, poppers), s);
    RestMeansEmptyOrNobody(pushers, poppers, s);
    NoWakeUpIsLost(pushers, poppers, s);
    BagEmpty(Held, s.pushers);
    if NobodySleeps(s.poppers) { SumZero(Wanting, s.poppers); }
    assert |multiset(Asked(run))| == |Asked(run)|;
    assert |multiset(s.queue.popped + s.queue.items)| == |s.queue.popped + s.queue.items|;
  }
}
