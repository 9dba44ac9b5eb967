/** Tee copies one input to two outputs, one value at a time. */
module Tee {
  import opened Options
  import opened Runs
  import opened Sums

  // outcomes of a select: the context is done, the input has a value or is closed, an output accepts
  datatype Choice<T> = CtxDone | Value(v: T) | InClosed | First | Second

  // Copying: o1 and o2 say which outputs still have to accept v (are not yet nil)
  datatype Pc<T> = Receiving | Copying(v: T, o1: bool, o2: bool) | Cancelled | InputClosed

  datatype State<T> = State(pc: Pc<T>, received: seq<T>, out1: seq<T>, out2: seq<T>)

  function Init<T>(): State<T> { State(Receiving, [], [], []) }

  /** Where the goroutine is once an output has accepted: done with the value when both are nil. */
  function Next<T>(v: T, o1: bool, o2: bool): Pc<T> {
    if o1 || o2 then Copying(v, o1, o2) else Receiving
  }

  function Step<T>(s: State<T>, c: Choice<T>): Option<State<T>> {
    match s.pc
    case Receiving =>
      if c.CtxDone? then Some(s.(pc := Cancelled))
      else if c.InClosed? then Some(s.(pc := InputClosed))
      else if c.Value? then Some(s.(pc := Copying(c.v, true, true), received := s.received + [c.v]))
      else None
    case Copying(v, o1, o2) =>
      if c.CtxDone? then Some(s.(pc := Cancelled))
      else if c.First? && o1 then Some(s.(pc := Next(v, false, o2), out1 := s.out1 + [v]))
      else if c.Second? && o2 then Some(s.(pc := Next(v, o1, false), out2 := s.out2 + [v]))
      else None
    case _ => None
  }

  function Steps<T>(): (State<T>, Choice<T>) -> Option<State<T>> {
    (s, c) => Step(s, c)
  }

  /** Both outputs follow the input; while a value is being copied each is at most one behind. */
  ghost predicate NearLockStep<T>(s: State<T>) {
    match s.pc
    case Receiving => s.out1 == s.received && s.out2 == s.received
    case InputClosed => s.out1 == s.received && s.out2 == s.received
    case Copying(v, o1, o2) =>
      && (o1 || o2) && |s.received| > 0 && s.received[|s.received| - 1] == v
      && s.out1 == (if o1 then s.received[..|s.received| - 1] else s.received)
      && s.out2 == (if o2 then s.received[..|s.received| - 1] else s.received)
    case Cancelled =>
      && s.out1 <= s.received && s.out2 <= s.received
      && |s.received| <= |s.out1| + 1 && |s.received| <= |s.out2| + 1
  }

  lemma NearLockStepKept<T>(s: State<T>, c: Choice<T>)
    requires NearLockStep(s) && Step(s, c).Some?
    ensures NearLockStep(Step(s, c).value)
  {
  }

  /**
    In every reachable state both outputs are prefixes of the values received,
    each at most one behind, and both are equal to it when the input has closed.
   */
  lemma OutputsFollow<T(!new)>(s: State<T>)
    requires Reaches(Steps(), Init(), s)
    ensures s.out1 <= s.received && s.out2 <= s.received
    ensures |s.received| <= |s.out1| + 1 && |s.received| <= |s.out2| + 1
    ensures s.pc.InputClosed? ==> s.out1 == s.received == s.out2
  {
    forall x: State<T>, c | NearLockStep(x) && Steps()(x, c).Some?
      ensures NearLockStep(Steps()(x, c).value)
    {
      NearLockStepKept(x, c);
    }
    ReachesInductive(Steps(), NearLockStep, Init(), s);
  }

  // ---- what a run makes of its choices ----

  /** The values that arrive, in order. */
  function Values<T>(run: seq<Choice<T>>): seq<T> {
    if run == [] then []
    else Values(run[..|run| - 1]) + (if run[|run| - 1].Value? then [run[|run| - 1].v] else [])
  }

  function IsFirst<T>(c: Choice<T>): nat { if c.First? then 1 else 0 }
  function IsSecond<T>(c: Choice<T>): nat { if c.Second? then 1 else 0 }

  /** The context is done, or the input closed. */
  ghost predicate Ended<T>(run: seq<Choice<T>>) {
    exists k :: 0 <= k < |run| && (run[k].CtxDone? || run[k].InClosed?)
  }

  /** An output accepts while it is behind, the input is read when neither is, and the context is always watched. */
  predicate Offered<T>(s: State<T>, c: Choice<T>) {
    match c
    case CtxDone => true
    case First => |s.out1| < |s.received|
    case Second => |s.out2| < |s.received|
    case _ => |s.out1| == |s.received| == |s.out2|
  }

  ghost predicate Recorded<T>(run: seq<Choice<T>>, s: State<T>) {
    && NearLockStep(s) && s.received == Values(run)
    && |s.out1| == Sum(IsFirst, run) && |s.out2| == Sum(IsSecond, run)
    && (s.pc.Cancelled? || s.pc.InputClosed? <==> Ended(run))
  }

  lemma HistoryNext<T>(run: seq<Choice<T>>, c: Choice<T>)
    ensures Values(run + [c]) == Values(run) + (if c.Value? then [c.v] else [])
    ensures Sum(IsFirst, run + [c]) == Sum(IsFirst, run) + IsFirst(c)
    ensures Sum(IsSecond, run + [c]) == Sum(IsSecond, run) + IsSecond(c)
    ensures Ended(run + [c]) <==> Ended(run) || c.CtxDone? || c.InClosed?
  {
    SumAppend(IsFirst, run, c);
    SumAppend(IsSecond, run, c);
    assert (run + [c])[..|run|] == run && (run + [c])[|run|] == c;
    assert forall k :: 0 <= k < |run| ==> (run + [c])[k] == run[k];
  }

  lemma StepCounts<T>(s: State<T>, c: Choice<T>)
    requires Step(s, c).Some?
    ensures var t := Step(s, c).value;
      && t.received == s.received + (if c.Value? then [c.v] else [])
      && |t.out1| == |s.out1| + IsFirst(c) && |t.out2| == |s.out2| + IsSecond(c)
      && !s.pc.Cancelled? && !s.pc.InputClosed?
      && (t.pc.Cancelled? || t.pc.InputClosed? <==> c.CtxDone? || c.InClosed?)
  {
  }

  lemma RecordedStep<T>(run: seq<Choice<T>>, s: State<T>, c: Choice<T>)
    requires Recorded(run, s) && Step(s, c).Some?
    ensures Recorded(run + [c], Step(s, c).value)
  {
    hide NearLockStep, Step, Values, Ended, Sum;
    NearLockStepKept(s, c);
    HistoryNext(run, c);
    StepCounts(s, c);
  }

  lemma RunRecorded<T(!new)>(run: seq<Choice<T>>, s: State<T>)
    requires Exec(Steps(), Init(), run) == Some(s)
    ensures Recorded(run, s)
  {
    var s0: State<T>, none: seq<Choice<T>> := Init(), [];
    assert Recorded(none, s0);
    forall h: seq<Choice<T>>, x, c | Recorded(h, x) && Steps()(x, c).Some?
      ensures Recorded(h + [c], Steps()(x, c).value)
    {
      RecordedStep(h, x, c);
    }
    HistoryHolds(Steps(), Recorded, s0, run, s);
  }

  /**
    Over every run: what counts as received is every value that arrived, and the outputs have accepted as
    often as they say.
   */
  lemma ReceivesWhatArrives<T(!new)>(run: seq<Choice<T>>, s: State<T>)
    requires Exec(Steps(), Init(), run) == Some(s)
    ensures s.received == Values(run)
    ensures |s.out1| == Sum(IsFirst, run) && |s.out2| == Sum(IsSecond, run)
  {
    RunRecorded(run, s);
  }

  /** And these are all its runs: until the end what is on offer depends on how far the outputs are. */
  lemma PossibleExactly<T(!new)>(run: seq<Choice<T>>, s: State<T>, c: Choice<T>)
    requires Exec(Steps(), Init(), run) == Some(s)
    ensures Step(s, c).Some? <==> !Ended(run) && Offered(s, c)
  {
    RunRecorded(run, s);
  }

  /**
    The goroutine, given what each of its selects yields. It stops where the
    next outcome is not one its select offers, that is, where it is blocked.
   */
  method Tee<T>(choices: seq<Choice<T>>) returns (out1: seq<T>, out2: seq<T>, used: nat, ghost s: State<T>)
    ensures used <= |choices| && Exec(Steps(), Init(), choices[..used]) == Some(s)
    ensures used < |choices| ==> Step(s, choices[used]).None?
    ensures (out1, out2) == (s.out1, s.out2)
  {
    out1, out2, used := [], [], 0;
    s := Init();
    while used < |choices|
      invariant used <= |choices|
      invariant Exec(Steps(), Init(), choices[..used]) == Some(s)
      invariant s.pc.Receiving? && (out1, out2) == (s.out1, s.out2)
      decreases |choices| - used
    {
      if !choices[used].CtxDone? && !choices[used].InClosed? && !choices[used].Value? {
        return;
      }
      ExecNext(Steps(), Init(), choices, used);
      s := Step(s, choices[used]).value;
      if choices[used].CtxDone? || choices[used].InClosed? {
        used := used + 1;
        return;
      }
      var v := choices[used].v;
      used := used + 1;
      // an output already served is set to nil
      var o1, o2 := true, true;
      while o1 || o2
        invariant used <= |choices|
        invariant Exec(Steps(), Init(), choices[..used]) == Some(s)
        invariant s.pc == Next(v, o1, o2) && (out1, out2) == (s.out1, s.out2)
        decreases |choices| - used
      {
        if used == |choices| {
          return;
        }
        ExecNext(Steps(), Init(), choices, used);
        if choices[used].CtxDone? {
          s, used := Step(s, choices[used]).value, used + 1;
          return;
        } else if choices[used].First? && o1 {
          out1, o1 := out1 + [v], false;
        } else if choices[used].Second? && o2 {
          out2, o2 := out2 + [v], false;
        } else {
          return;
        }
        s, used := Step(s, choices[used]).value, used + 1;
      }
    }
  }
}
