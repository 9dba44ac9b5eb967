/**
  A chain of any number of Map stages over unbuffered channels, under one
  cancellable context, from a source to a consumer that keeps reading.
 */
module Pipeline {
  import opened Options
  import opened Runs
  import opened Sums

  // source: the values the source sends before it closes; fns: the function of each stage
  datatype Config<!V> = Config(source: seq<V>, fns: seq<V -> V>)

  // Sending holds the value a stage has computed and not yet handed on; Gone has closed its channel.
  datatype Stage<V> = Receiving | Sending(v: V) | Gone

  // sent[i]: what has been handed over on channel i, from stage i - 1 (the source for 0) to stage i (the
  // consumer for the last)
  datatype State<V> = State(cancelled: bool, srcClosed: bool, sent: seq<seq<V>>, stages: seq<Stage<V>>)

  datatype Action = Cancel | CloseSource | HandOver(i: nat) | SeeClosed(i: nat) | SeeCancel(i: nat)

  function Init<V>(c: Config<V>): State<V> {
    State(false, false, seq(|c.fns| + 1, i => []), seq(|c.fns|, i => Receiving))
  }

  /** Channel i is closed. */
  predicate Closed<V>(s: State<V>, i: nat)
    requires i <= |s.stages|
  {
    if i == 0 then s.srcClosed else s.stages[i - 1].Gone?
  }

  /** The value on offer on channel i. */
  function Offered<V>(c: Config<V>, s: State<V>, i: nat): Option<V>
    requires i <= |s.stages| && |s.sent| == |s.stages| + 1
  {
    if i == 0 then
      if !s.srcClosed && |s.sent[0]| < |c.source| then Some(c.source[|s.sent[0]|]) else None
    else if s.stages[i - 1].Sending? then Some(s.stages[i - 1].v)
    else None
  }

  function HandOverStep<V>(c: Config<V>, s: State<V>, i: nat, v: V): State<V>
    requires i <= |s.stages| && |s.sent| == |s.stages| + 1 == |c.fns| + 1
  {
    var sender := if i > 0 then s.stages[i - 1 := Receiving] else s.stages;
    s.(sent := s.sent[i := s.sent[i] + [v]],
       stages := if i < |s.stages| then sender[i := Sending(c.fns[i](v))] else sender)
  }

  function Step<V>(c: Config<V>, s: State<V>, a: Action): Option<State<V>> {
    if |s.stages| != |c.fns| || |s.sent| != |c.fns| + 1 then None
    else match a
      case Cancel => Some(s.(cancelled := true))
      case CloseSource => if |s.sent[0]| == |c.source| then Some(s.(srcClosed := true)) else None
      case HandOver(i) =>
        if i > |s.stages| || Offered(c, s, i).None? || (i < |s.stages| && !s.stages[i].Receiving?) then None
        else Some(HandOverStep(c, s, i, Offered(c, s, i).value))
      case SeeClosed(i) =>
        if i < |s.stages| && s.stages[i].Receiving? && Closed(s, i) then Some(s.(stages := s.stages[i := Gone])) else None
      case SeeCancel(i) =>
        if i < |s.stages| && !s.stages[i].Gone? && s.cancelled then Some(s.(stages := s.stages[i := Gone])) else None
  }

  function Steps<V>(c: Config<V>): (State<V>, Action) -> Option<State<V>> {
    (s, a) => Step(c, s, a)
  }

  // ---- one stage ----

  /** What a stage has sent is its function of what it has received, at most one value behind. */
  ghost predicate StageOk<T, U>(f: T -> U, received: seq<T>, sent: seq<U>, stage: Stage<U>,
      upClosed: bool, cancelled: bool) {
    && |sent| <= |received| <= |sent| + 1
    && (forall p :: 0 <= p < |sent| ==> sent[p] == f(received[p]))
    && (stage.Receiving? ==> |received| == |sent|)
    && (stage.Sending? ==> |received| == |sent| + 1 && stage.v == f(received[|sent|]))
    && (stage.Gone? && !cancelled ==> |received| == |sent| && upClosed)
  }

  ghost predicate ChainOk<V>(c: Config<V>, s: State<V>) {
    && |s.stages| == |c.fns| && |s.sent| == |c.fns| + 1
    && forall i :: 0 <= i < |s.stages| ==>
         StageOk(c.fns[i], s.sent[i], s.sent[i + 1], s.stages[i], Closed(s, i), s.cancelled)
  }

  ghost predicate SourceOk<V>(c: Config<V>, s: State<V>) {
    |s.sent| > 0 && s.sent[0] <= c.source && (s.srcClosed ==> s.sent[0] == c.source)
  }

  ghost predicate Inv<V>(c: Config<V>, s: State<V>) { ChainOk(c, s) && SourceOk(c, s) }

  lemma HandOverOk<V>(c: Config<V>, s: State<V>, i: nat)
    requires ChainOk(c, s) && Step(c, s, HandOver(i)).Some?
    ensures ChainOk(c, Step(c, s, HandOver(i)).value)
  {
    var t := Step(c, s, HandOver(i)).value;
    forall k | 0 <= k < |t.stages|
      ensures StageOk(c.fns[k], t.sent[k], t.sent[k + 1], t.stages[k], Closed(t, k), t.cancelled)
    {
      assert StageOk(c.fns[k], s.sent[k], s.sent[k + 1], s.stages[k], Closed(s, k), s.cancelled);
      if k != i && k + 1 != i {
        assert Closed(t, k) == Closed(s, k);
        hide StageOk;
      }
    }
  }

  lemma InvStep<V>(c: Config<V>, s: State<V>, a: Action)
    requires Inv(c, s) && Step(c, s, a).Some?
    ensures Inv(c, Step(c, s, a).value)
  {
    var t := Step(c, s, a).value;
    if a.HandOver? {
      HandOverOk(c, s, a.i);
      hide ChainOk;
    } else {
      forall k | 0 <= k < |t.stages|
        ensures StageOk(c.fns[k], t.sent[k], t.sent[k + 1], t.stages[k], Closed(t, k), t.cancelled)
      {
        assert StageOk(c.fns[k], s.sent[k], s.sent[k + 1], s.stages[k], Closed(s, k), s.cancelled);
      }
    }
  }

  lemma ReachableInv<V(!new)>(c: Config<V>, s: State<V>)
    requires Reaches(Steps(c), Init(c), s)
    ensures Inv(c, s)
  {
    var inv := (x: State<V>) => Inv(c, x);
    forall x, a | inv(x) && Steps(c)(x, a).Some?
      ensures inv(Steps(c)(x, a).value)
    {
      InvStep(c, x, a);
    }
    ReachesInductive(Steps(c), inv, Init(c), s);
  }

  // ---- the whole chain ----

  /** A value after the given stages, in order. */
  function Through<V>(fns: seq<V -> V>, v: V): V {
    if fns == [] then v else fns[|fns| - 1](Through(fns[..|fns| - 1], v))
  }

  /** Channel i carries, in order, source values after the first i stages, and at most i are still on the way. */
  lemma {:induction false} ChannelContent<V>(c: Config<V>, s: State<V>, i: nat)
    requires Inv(c, s) && i <= |c.fns|
    ensures |s.sent[i]| <= |s.sent[0]| <= |s.sent[i]| + i
    ensures forall p :: 0 <= p < |s.sent[i]| ==> s.sent[i][p] == Through(c.fns[..i], c.source[p])
  {
    if i > 0 {
      ChannelContent(c, s, i - 1);
      assert StageOk(c.fns[i - 1], s.sent[i - 1], s.sent[i], s.stages[i - 1], Closed(s, i - 1), s.cancelled);
      assert c.fns[..i][..i - 1] == c.fns[..i - 1];
    }
  }

  /**
    In every reachable state the output is a prefix of the composed function mapped over the source, k
    behind at most.
   */
  lemma OutputIsPrefix<V(!new)>(c: Config<V>, s: State<V>)
    requires Reaches(Steps(c), Init(c), s)
    ensures |s.sent| == |c.fns| + 1
    ensures var out := s.sent[|c.fns|];
      && |out| <= |s.sent[0]| <= |c.source| && |s.sent[0]| - |out| <= |c.fns|
      && forall p :: 0 <= p < |out| ==> out[p] == Through(c.fns, c.source[p])
  {
    ReachableInv(c, s);
    ChannelContent(c, s, |c.fns|);
    assert c.fns[..|c.fns|] == c.fns;
  }

  /** Without a cancellation a closed channel has carried everything. */
  lemma {:induction false} ClosedIsComplete<V>(c: Config<V>, s: State<V>, i: nat)
    requires Inv(c, s) && !s.cancelled && i <= |c.fns| && Closed(s, i)
    ensures |s.sent[i]| == |c.source|
  {
    if i > 0 {
      assert StageOk(c.fns[i - 1], s.sent[i - 1], s.sent[i], s.stages[i - 1], Closed(s, i - 1), s.cancelled);
      ClosedIsComplete(c, s, i - 1);
    }
  }

  /** If the last channel is closed without a cancellation, the consumer has the whole mapped source. */
  lemma ClosedOutputIsWhole<V(!new)>(c: Config<V>, s: State<V>)
    requires Reaches(Steps(c), Init(c), s) && !s.cancelled
    requires |s.stages| == |c.fns| && Closed(s, |c.fns|)
    ensures |s.sent| == |c.fns| + 1
    ensures s.sent[|c.fns|] == seq(|c.source|, p requires 0 <= p < |c.source| => Through(c.fns, c.source[p]))
  {
    ReachableInv(c, s);
    OutputIsPrefix(c, s);
    ClosedIsComplete(c, s, |c.fns|);
  }

  // ---- every run ends ----

  // the hand-overs still to come on a channel
  function Missing<V>(n: nat): seq<V> -> nat {
    h => if |h| <= n then n - |h| else 0
  }

  function Here<V>(x: Stage<V>): nat { if x.Gone? then 0 else 1 }

  function HopsLeft<V>(c: Config<V>, s: State<V>): nat {
    Sum(Missing(|c.source|), s.sent) + Sum(Here, s.stages)
  }

  predicate Internal(a: Action) { !a.Cancel? && !a.CloseSource? }

  /** A value on offer has not been counted yet. */
  lemma SentBound<V>(c: Config<V>, s: State<V>, i: nat)
    requires Inv(c, s) && Step(c, s, HandOver(i)).Some?
    ensures |s.sent[i]| < |c.source|
  {
    if i > 0 {
      ChannelContent(c, s, i - 1);
      assert StageOk(c.fns[i - 1], s.sent[i - 1], s.sent[i], s.stages[i - 1], Closed(s, i - 1), s.cancelled);
    }
  }

  lemma NobodyLeaves<V>(c: Config<V>, s: State<V>, i: nat)
    requires Step(c, s, HandOver(i)).Some?
    ensures Sum(Here, Step(c, s, HandOver(i)).value.stages) == Sum(Here, s.stages)
  {
    var t := Step(c, s, HandOver(i)).value;
    if i > 0 { SumUpdate(Here, s.stages, i - 1, Receiving); }
    if i < |s.stages| {
      var mid := if i > 0 then s.stages[i - 1 := Receiving] else s.stages;
      SumUpdate(Here, mid, i, t.stages[i]);
    }
  }

  lemma HandOverUsesUp<V>(c: Config<V>, s: State<V>, i: nat)
    requires Inv(c, s) && Step(c, s, HandOver(i)).Some?
    ensures HopsLeft(c, Step(c, s, HandOver(i)).value) < HopsLeft(c, s)
  {
    hide ChainOk, SourceOk;
    var t := Step(c, s, HandOver(i)).value;
    SentBound(c, s, i);
    SumUpdate(Missing(|c.source|), s.sent, i, t.sent[i]);
    NobodyLeaves(c, s, i);
  }

  /** Every hand-over and every exit brings the end nearer. */
  lemma StepUsesUp<V>(c: Config<V>, s: State<V>, a: Action)
    requires Inv(c, s) && Step(c, s, a).Some?
    ensures var t := Step(c, s, a).value;
      if Internal(a) then HopsLeft(c, t) < HopsLeft(c, s) else HopsLeft(c, t) == HopsLeft(c, s)
  {
    match a
    case HandOver(i) => HandOverUsesUp(c, s, i);
    case SeeClosed(i) => SumUpdate(Here, s.stages, i, Gone);
    case SeeCancel(i) => SumUpdate(Here, s.stages, i, Gone);
    case _ =>
  }

  function InternalSteps(run: seq<Action>): nat {
    if run == [] then 0 else (if Internal(run[0]) then 1 else 0) + InternalSteps(run[1..])
  }

  lemma {:induction false} RunUsesUp<V>(c: Config<V>, s: State<V>, run: seq<Action>, t: State<V>)
    requires Inv(c, s) && Exec(Steps(c), s, run) == Some(t)
    ensures InternalSteps(run) + HopsLeft(c, t) <= HopsLeft(c, s)
    decreases |run|
  {
    if run != [] {
      InvStep(c, s, run[0]);
      StepUsesUp(c, s, run[0]);
      hide HopsLeft, Step, Inv;
      RunUsesUp(c, Step(c, s, run[0]).value, run[1..], t);
    }
  }

  /** Every run makes at most one hand-over for each value on each channel, and one exit for each stage. */
  lemma EveryRunEnds<V>(c: Config<V>, run: seq<Action>, t: State<V>)
    requires Exec(Steps(c), Init(c), run) == Some(t)
    ensures InternalSteps(run) <= |c.source| * (|c.fns| + 1) + |c.fns|
  {
    RunUsesUp(c, Init(c), run, t);
    SumConstant(Missing(|c.source|), Init(c).sent, |c.source|);
    SumConstant(Here, Init(c).stages, 1);
  }

  ghost predicate AtRest<V>(c: Config<V>, s: State<V>) {
    forall a :: Internal(a) ==> Step(c, s, a).None?
  }

  /** With a reading consumer no stage rests with a value in hand: the next stage takes it, or was never gone. */
  lemma {:induction false} NobodyHolds<V>(c: Config<V>, s: State<V>, i: nat)
    requires Inv(c, s) && AtRest(c, s) && !s.cancelled && i < |s.stages|
    ensures !s.stages[i].Sending?
    decreases |s.stages| - i
  {
    assert Internal(HandOver(i + 1));
    if i + 1 < |s.stages| {
      NobodyHolds(c, s, i + 1);
      assert StageOk(c.fns[i + 1], s.sent[i + 1], s.sent[i + 2], s.stages[i + 1], Closed(s, i + 1), s.cancelled);
    }
  }

  lemma {:induction false} EverybodyLeft<V>(c: Config<V>, s: State<V>, i: nat)
    requires Inv(c, s) && AtRest(c, s) && !s.cancelled && s.srcClosed && i <= |s.stages|
    ensures Closed(s, i)
    decreases i
  {
    if i > 0 {
      EverybodyLeft(c, s, i - 1);
      NobodyHolds(c, s, i - 1);
      assert Internal(SeeClosed(i - 1));
    }
  }

  /**
    When the source has closed and nobody cancelled, every run comes to rest with all stages gone and
    the whole mapped source delivered.
   */
  lemma RestMeansWhole<V(!new)>(c: Config<V>, s: State<V>)
    requires Reaches(Steps(c), Init(c), s) && AtRest(c, s) && s.srcClosed && !s.cancelled
    ensures |s.stages| == |c.fns| && |s.sent| == |c.fns| + 1
    ensures forall i :: 0 <= i < |s.stages| ==> s.stages[i].Gone?
    ensures s.sent[|c.fns|] == seq(|c.source|, p requires 0 <= p < |c.source| => Through(c.fns, c.source[p]))
  {
    ReachableInv(c, s);
    forall i | 0 <= i < |s.stages| ensures s.stages[i].Gone? {
      EverybodyLeft(c, s, i + 1);
    }
    EverybodyLeft(c, s, |s.stages|);
    ClosedOutputIsWhole(c, s);
  }

  /** After a cancellation every run comes to rest with all stages gone, whether or not the consumer still reads. */
  lemma RestMeansGone<V>(c: Config<V>, s: State<V>)
    requires Inv(c, s) && s.cancelled && forall i :: Step(c, s, SeeCancel(i)).None?
    ensures forall i :: 0 <= i < |s.stages| ==> s.stages[i].Gone?
  {
    forall i | 0 <= i < |s.stages| ensures s.stages[i].Gone? {
      assert Step(c, s, SeeCancel(i)).None?;
    }
  }

  // ---- stages between different types ----

  // the values of a chain from T through U to W; a longer chain has one constructor for each type on its way
  datatype Typed<T, U, W> = Source(t: T) | Between(u: U) | Result(w: W)

  function FirstStage<T, U, W>(f: T -> U): Typed<T, U, W> -> Typed<T, U, W> {
    (x: Typed<T, U, W>) => if x.Source? then Between(f(x.t)) else x
  }

  function SecondStage<T, U, W>(g: U -> W): Typed<T, U, W> -> Typed<T, U, W> {
    (x: Typed<T, U, W>) => if x.Between? then Result(g(x.u)) else x
  }

  function TypedChain<T, U, W>(source: seq<T>, f: T -> U, g: U -> W): Config<Typed<T, U, W>> {
    Config(seq(|source|, p requires 0 <= p < |source| => Source(source[p])), [FirstStage(f), SecondStage(g)])
  }

  /**
    A stage from T to U and one from U to W output, in every reachable state, a prefix of the
    composition mapped over the source.
   */
  lemma TypedOutputIsPrefix<T(!new), U(!new), W(!new)>(source: seq<T>, f: T -> U, g: U -> W, s: State<Typed<T, U, W>>)
    requires var c := TypedChain(source, f, g); Reaches(Steps(c), Init(c), s)
    ensures |s.sent| == 3 && |s.sent[2]| <= |s.sent[0]| <= |source| && |s.sent[0]| <= |s.sent[2]| + 2
    ensures forall p :: 0 <= p < |s.sent[2]| ==> s.sent[2][p] == Result(g(f(source[p])))
  {
    var c := TypedChain(source, f, g);
    OutputIsPrefix(c, s);
    forall p | 0 <= p < |s.sent[2]|
      ensures s.sent[2][p] == Result(g(f(source[p])))
    {
      assert c.fns[..1] == [FirstStage(f)] && c.fns[..1][..0] == [];
      assert Through(c.fns[..1], c.source[p]) == FirstStage(f)(Through(c.fns[..1][..0], c.source[p]));
      assert Through(c.fns, c.source[p]) == SecondStage(g)(Through(c.fns[..1], c.source[p]));
    }
  }

  // ---- the loop of one stage ----

  // outcomes of a select: the context is done, the input has a value or is closed, the output accepts
  datatype Choice<V> = CtxDone | Value(v: V) | InClosed | Accepted

  function Values<V>(choices: seq<Choice<V>>): seq<V> {
    if choices == [] then []
    else Values(choices[..|choices| - 1])
         + (if choices[|choices| - 1].Value? then [choices[|choices| - 1].v] else [])
  }

  lemma ValuesNext<V>(choices: seq<Choice<V>>, k: nat)
    requires k < |choices|
    ensures Values(choices[..k + 1]) == Values(choices[..k]) + (if choices[k].Value? then [choices[k].v] else [])
    ensures choices[k] in choices[..k + 1]
  {
    assert choices[..k + 1][..k] == choices[..k];
    assert choices[..k + 1] == choices[..k] + [choices[k]];
  }

  /**
    The goroutine of Map, given what each of its selects yields; it stops where
    it is blocked. What it leaves behind is what the chain needs of a stage.
   */
  method MapLoop<T, U>(fn: T -> U, choices: seq<Choice<T>>)
    returns (received: seq<T>, sent: seq<U>, stage: Stage<U>, used: nat)
    ensures used <= |choices|
    ensures StageOk(fn, received, sent, stage, InClosed in choices[..used], CtxDone in choices[..used])
    ensures received == Values(choices[..used])
    ensures used < |choices| ==>
      match stage
      case Receiving => choices[used].Accepted?
      case Sending(_) => choices[used].Value? || choices[used].InClosed?
      case Gone => true
    ensures stage.Gone? ==> used > 0 && (choices[used - 1].CtxDone? || choices[used - 1].InClosed?)
    ensures forall k :: 0 <= k < used && (choices[k].CtxDone? || choices[k].InClosed?) ==> stage.Gone? && k == used - 1
  {
    received, sent, stage, used := [], [], Receiving, 0;
    assert Values(choices[..0]) == [];
    hide Values;
    while used < |choices|
      invariant used <= |choices| && stage.Receiving?
      invariant StageOk(fn, received, sent, stage, false, false)
      invariant received == Values(choices[..used])
      invariant forall k :: 0 <= k < used ==> !choices[k].CtxDone? && !choices[k].InClosed?
      decreases |choices| - used
    {
      ValuesNext(choices, used);
      match choices[used]
      case CtxDone =>
        return received, sent, Gone, used + 1;
      case InClosed =>
        return received, sent, Gone, used + 1;
      case Accepted =>
        return;
      case Value(v) =>
        var u := fn(v);
        received, stage, used := received + [v], Sending(u), used + 1;
        if used == |choices| {
          return;
        }
        ValuesNext(choices, used);
        match choices[used]
        case CtxDone =>
          return received, sent, Gone, used + 1;
        case Accepted =>
          sent, stage, used := sent + [u], Receiving, used + 1;
        case _ =>
          return;
    }
  }
}
