/**
  Calls of the intake come to an end: there is no deadlock, and once closedCh
  is closed every call takes a bounded number of steps.
 */
module IntakeProgress {
  import opened Options
  import opened Runs
  import opened Sums
  import opened Intake

  /** The next operation of a call in progress. */
  predicate InProgress(s: State, a: Action) {
    match a
    case Submit(i, op) => i < |s.subs| && !s.subs[i].Idle? && op.Go?
    case Close(k) => k < |s.closers| && !s.closers[k].Outside?
    case Take => false
  }

  /** No call in progress can go on by itself. */
  ghost predicate AtRest(c: Config, s: State) {
    forall a :: InProgress(s, a) ==> Step(c, s, a).None?
  }

  /** Whoever holds mu can go on. */
  lemma HolderMoves(c: Config, s: State)
    requires SafeInv(s) && !s.gate.mu.Free?
    ensures !AtRest(c, s)
  {
    match s.gate.mu
    case Submitter(i) =>
      assert s.subs[i].HoldsLock();
      assert InProgress(s, Submit(i, Go)) && Step(c, s, Submit(i, Go)).Some?;
    case Closing(k) =>
      assert s.closers[k].HoldsLock();
      assert InProgress(s, Close(k)) && Step(c, s, Close(k)).Some?;
  }

  /** With mu free the goroutine in the body of Close can go on. */
  lemma BodyMoves(c: Config, s: State)
    requires SafeInv(s) && s.gate.mu.Free? && s.gate.once.Running?
    ensures !AtRest(c, s)
  {
    var k := s.gate.once.k;
    assert s.closers[k].InBody();
    assert InProgress(s, Close(k)) && Step(c, s, Close(k)).Some?;
  }

  lemma SubmitterMoves(c: Config, s: State, i: nat)
    requires !s.panicked && s.gate.mu.Free? && i < |s.subs| && !s.subs[i].Idle? && !s.subs[i].HoldsLock()
    ensures !AtRest(c, s)
  {
    assert InProgress(s, Submit(i, Go)) && Step(c, s, Submit(i, Go)).Some?;
  }

  lemma CallerMoves(c: Config, s: State, k: nat)
    requires !s.panicked && k < |s.closers| && s.closers[k].AtOnce? && !s.gate.once.Running?
    ensures !AtRest(c, s)
  {
    assert InProgress(s, Close(k)) && Step(c, s, Close(k)).Some?;
  }

  /** No deadlock: where no call in progress can go on there is none, and mu is free. */
  lemma NoDeadlock(c: Config, s: State)
    requires SafeInv(s) && AtRest(c, s)
    ensures s.gate.mu.Free?
    ensures forall i :: 0 <= i < |s.subs| ==> s.subs[i].Idle?
    ensures forall k :: 0 <= k < |s.closers| ==> s.closers[k].Outside?
  {
    if !s.gate.mu.Free? { HolderMoves(c, s); }
    if s.gate.once.Running? { BodyMoves(c, s); }
    forall i: nat | i < |s.subs| ensures s.subs[i].Idle? {
      if !s.subs[i].Idle? { SubmitterMoves(c, s, i); }
    }
    forall k: nat | k < |s.closers| ensures s.closers[k].Outside? {
      if s.closers[k].AtOnce? { CallerMoves(c, s, k); }
    }
  }

  // ---- once closedCh is closed ----

  function SubRank(x: Sub): nat {
    match x
    case Idle => 0
    case FirstCheck(_, _) => 1
    case WantLock(_, _) => 3
    case Recheck(_, _) => 2
    case Sending(_, _) => 4
    case Sent(_) => 2
    case Post(kind, _) => if kind.TrySubmit? then 2 else 1
    case Release(kind, _, verdict) => if verdict.NoRoom? && kind.SubmitWithContext? then 3 else 1
    case Retry(_) => 2
  }

  function CloserRank(x: Closer): nat {
    match x
    case Outside => 0 case AtOnce => 1 case AtClosedCh => 7 case AtCancel => 6 case AtLock => 5
    case AtQueue => 4 case AtUnlock => 3 case AtDone => 2
  }

  /** The steps the calls in progress can still take. */
  function CallsLeft(s: State): nat { Sum(SubRank, s.subs) + Sum(CloserRank, s.closers) }

  /** A new call begins. */
  predicate Begins(s: State, a: Action) {
    match a
    case Submit(_, op) => op.Begin?
    case Close(k) => k < |s.closers| && s.closers[k].Outside?
    case Take => false
  }

  lemma SubFalls(c: Config, s: State, i: nat, op: Op)
    requires s.gate.closedCh && i < |s.subs| && SubStep(c, s, i, op).Some? && !SubStep(c, s, i, op).value.panicked
    ensures var t := SubStep(c, s, i, op).value;
      && t.gate.closedCh && t.closers == s.closers && |t.subs| == |s.subs| && t.subs == s.subs[i := t.subs[i]]
      && (if op.Begin? then SubRank(t.subs[i]) == SubRank(s.subs[i]) + 1 else SubRank(t.subs[i]) < SubRank(s.subs[i]))
  {
  }

  lemma SubUsesUp(c: Config, s: State, i: nat, op: Op)
    requires s.gate.closedCh && i < |s.subs| && SubStep(c, s, i, op).Some? && !SubStep(c, s, i, op).value.panicked
    ensures var t := SubStep(c, s, i, op).value;
      && t.gate.closedCh
      && (if op.Begin? then CallsLeft(t) == CallsLeft(s) + 1 else CallsLeft(t) < CallsLeft(s))
  {
    SubFalls(c, s, i, op);
    SumUpdate(SubRank, s.subs, i, SubStep(c, s, i, op).value.subs[i]);
    hide SubStep;
  }

  lemma CloserUsesUp(s: State, k: nat)
    requires SafeInv(s) && s.gate.closedCh && k < |s.closers| && CloseStep(s, k).Some?
    ensures var t := CloseStep(s, k).value;
      && t.gate.closedCh
      && if s.closers[k].Outside? then CallsLeft(t) == CallsLeft(s) + 1 else CallsLeft(t) < CallsLeft(s)
  {
    SumUpdate(CloserRank, s.closers, k, CloseStep(s, k).value.closers[k]);
    hide LockInv;
  }

  /** Every step of a call uses up what the calls have left; a new call adds one. */
  lemma StepUsesUp(c: Config, s: State, a: Action)
    requires SafeInv(s) && s.gate.closedCh && Step(c, s, a).Some?
    ensures var t := Step(c, s, a).value;
      && SafeInv(t) && t.gate.closedCh
      && (if a.Take? then CallsLeft(t) == CallsLeft(s)
          else if Begins(s, a) then CallsLeft(t) == CallsLeft(s) + 1
          else CallsLeft(t) < CallsLeft(s))
  {
    SafeStep(c, s, a);
    hide SubStep, CloseStep;
    assert SafeInv(Step(c, s, a).value);
    match a
    case Take =>
    case Submit(i, op) => SubUsesUp(c, s, i, op);
    case Close(k) => CloserUsesUp(s, k);
  }

  /** The steps calls in progress take in a run, and the calls it begins. */
  function CallSteps(c: Config, s: State, run: seq<Action>): nat
    decreases |run|
  {
    if run == [] || Step(c, s, run[0]).None? then 0
    else (if run[0].Take? || Begins(s, run[0]) then 0 else 1) + CallSteps(c, Step(c, s, run[0]).value, run[1..])
  }

  function Begun(c: Config, s: State, run: seq<Action>): nat
    decreases |run|
  {
    if run == [] || Step(c, s, run[0]).None? then 0
    else (if Begins(s, run[0]) then 1 else 0) + Begun(c, Step(c, s, run[0]).value, run[1..])
  }

  /**
    Once closedCh is closed the calls in progress take a bounded number of steps, in every run, and a
    new call only one.
   */
  lemma {:induction false} ClosingBoundsCalls(c: Config, s: State, run: seq<Action>, t: State)
    requires SafeInv(s) && s.gate.closedCh && Exec(Steps(c), s, run) == Some(t)
    ensures CallSteps(c, s, run) + CallsLeft(t) <= CallsLeft(s) + Begun(c, s, run)
    decreases |run|
  {
    if run != [] {
      StepUsesUp(c, s, run[0]);
      hide SafeInv, CallsLeft, Step, Begins;
      ClosingBoundsCalls(c, Step(c, s, run[0]).value, run[1..], t);
    }
  }
}
