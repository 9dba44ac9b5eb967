/**
  Fan-out to w workers that share one input and one output, and fan-in by a
  goroutine that closes the output once the last worker has left. Values are
  tracked by their index in the input.
 */
module FanOut {
  import opened Options
  import opened Runs
  import opened Sums
  import opened Bags

  // n: how many values the input carries before it closes
  datatype Config = Config(workers: nat, n: nat)

  // Sending holds fn of the k-th input value.
  datatype Worker = Receiving | Sending(k: nat) | Gone

  datatype Flow = Flow(received: nat, out: seq<nat>, dropped: multiset<nat>)

  datatype State = State(
    cancelled: bool,
    inClosed: bool,
    outClosed: bool,
    wg: int,
    flow: Flow,
    workers: seq<Worker>,
    panicked: bool)     // a send on the closed output

  datatype Action =
    | Cancel
    | CloseInput
    | Receive(j: nat)
    | SeeClosed(j: nat)
    | SeeCancel(j: nat)
    | Emit(j: nat)
    | CloseOutput

  function Init(c: Config): State {
    State(false, false, false, c.workers, Flow(0, [], multiset{}), seq(c.workers, j => Receiving), false)
  }

  function WorkStep(c: Config, s: State, j: nat, a: Action): Option<State>
    requires j < |s.workers|
  {
    var f := s.flow;
    match s.workers[j]
    case Receiving =>
      if a.Receive? && f.received < c.n then
        Some(s.(flow := f.(received := f.received + 1), workers := s.workers[j := Sending(f.received)]))
      else if (a.SeeClosed? && s.inClosed) || (a.SeeCancel? && s.cancelled) then
        Some(s.(wg := s.wg - 1, workers := s.workers[j := Gone]))
      else None
    case Sending(k) =>
      if a.Emit? then
        Some(if s.outClosed then s.(panicked := true)
             else s.(flow := f.(out := f.out + [k]), workers := s.workers[j := Receiving]))
      else if a.SeeCancel? && s.cancelled then
        Some(s.(wg := s.wg - 1, flow := f.(dropped := f.dropped + multiset{k}), workers := s.workers[j := Gone]))
      else None
    case Gone => None
  }

  function Step(c: Config, s: State, a: Action): Option<State> {
    if s.panicked then None
    else match a
      case Cancel => Some(s.(cancelled := true))
      case CloseInput => if s.flow.received == c.n && !s.inClosed then Some(s.(inClosed := true)) else None
      case CloseOutput => if s.wg == 0 && !s.outClosed then Some(s.(outClosed := true)) else None
      case _ => if a.j < |s.workers| then WorkStep(c, s, a.j, a) else None
  }

  function Steps(c: Config): (State, Action) -> Option<State> {
    (s, a) => Step(c, s, a)
  }

  // ---- the invariant ----

  function InHand(w: Worker): multiset<nat> { if w.Sending? then multiset{w.k} else multiset{} }
  function Here(w: Worker): nat { if w.Gone? then 0 else 1 }

  /** The indices of the first n values. */
  function Indices(n: nat): seq<nat> { seq(n, i => i) }

  /** Every value received is emitted, dropped or in one worker's hand. */
  ghost predicate FlowInv(f: Flow, ws: seq<Worker>) {
    Accounted(InHand, Indices(f.received), multiset(f.out) + f.dropped, ws)
  }

  /** A value overtakes at most w - 1 others. */
  ghost predicate OrderInv(c: Config, f: Flow) {
    forall p :: 0 <= p < |f.out| ==> f.out[p] < p + c.workers
  }

  ghost predicate ExitInv(c: Config, s: State) {
    && |s.workers| == c.workers
    && s.flow.received <= c.n
    && s.wg == Sum(Here, s.workers)
    && (s.outClosed ==> s.wg == 0)
    && |s.flow.dropped| + s.wg <= c.workers
    && (s.inClosed ==> s.flow.received == c.n)
    && (!s.cancelled ==> s.flow.dropped == multiset{})
    && (!s.cancelled && s.wg < c.workers ==> s.inClosed)
    && !s.panicked
  }

  ghost predicate Inv(c: Config, s: State) {
    FlowInv(s.flow, s.workers) && OrderInv(c, s.flow) && ExitInv(c, s)
  }

  lemma IndicesNext(n: nat)
    ensures Indices(n + 1) == Indices(n) + [n]
  {
  }

  lemma EmitFlow(f: Flow, ws: seq<Worker>, j: nat, w: Worker, out: bool)
    requires FlowInv(f, ws) && j < |ws| && ws[j].Sending? && !w.Sending?
    ensures FlowInv(if out then f.(out := f.out + [ws[j].k]) else f.(dropped := f.dropped + multiset{ws[j].k}), ws[j := w])
  {
    PutDown(InHand, Indices(f.received), multiset(f.out) + f.dropped, ws, j, w);
    var k := multiset{ws[j].k};
    assert multiset(f.out + [ws[j].k]) == multiset(f.out) + k;
    assert (multiset(f.out) + k) + f.dropped == (multiset(f.out) + f.dropped) + k;
    assert multiset(f.out) + (f.dropped + k) == (multiset(f.out) + f.dropped) + k;
  }

  lemma ReceiveFlow(f: Flow, ws: seq<Worker>, j: nat)
    requires FlowInv(f, ws) && j < |ws| && ws[j].Receiving?
    ensures FlowInv(f.(received := f.received + 1), ws[j := Sending(f.received)])
  {
    IndicesNext(f.received);
    PickUp(InHand, Indices(f.received), multiset(f.out) + f.dropped, ws, j, Sending(f.received), f.received);
  }

  lemma LeaveFlow(f: Flow, ws: seq<Worker>, j: nat)
    requires FlowInv(f, ws) && j < |ws| && ws[j].Receiving?
    ensures FlowInv(f, ws[j := Gone])
  {
    Carry(InHand, Indices(f.received), multiset(f.out) + f.dropped, ws, j, Gone);
  }

  lemma FlowStep(c: Config, s: State, a: Action)
    requires FlowInv(s.flow, s.workers) && Step(c, s, a).Some?
    ensures var t := Step(c, s, a).value; FlowInv(t.flow, t.workers)
  {
    hide FlowInv;
    if !a.Cancel? && !a.CloseInput? && !a.CloseOutput? {
      if s.workers[a.j].Receiving? {
        if a.Receive? { ReceiveFlow(s.flow, s.workers, a.j); } else { LeaveFlow(s.flow, s.workers, a.j); }
      } else if !(a.Emit? && s.outClosed) {
        EmitFlow(s.flow, s.workers, a.j, if a.Emit? then Receiving else Gone, a.Emit?);
      }
    }
  }

  lemma {:induction false} HandsHere(ws: seq<Worker>)
    ensures |Bag(InHand, ws)| <= Sum(Here, ws)
  {
    if ws != [] { HandsHere(ws[..|ws| - 1]); }
  }

  /** How many values are where. */
  lemma FlowSizes(f: Flow, ws: seq<Worker>)
    requires FlowInv(f, ws)
    ensures f.received == |f.out| + |f.dropped| + |Bag(InHand, ws)|
  {
    assert |multiset(Indices(f.received))| == f.received;
  }

  /** The values in hand have been received. */
  lemma HandReceived(f: Flow, ws: seq<Worker>, j: nat)
    requires FlowInv(f, ws) && j < |ws| && ws[j].Sending?
    ensures ws[j].k < f.received
  {
    BagMember(InHand, ws, j);
    assert ws[j].k in InHand(ws[j]);
    assert ws[j].k in multiset(Indices(f.received));
    assert ws[j].k in Indices(f.received);
  }

  /** When a value is emitted, the others received before it are out already or with the other workers. */
  lemma NotTooLate(c: Config, s: State, j: nat)
    requires FlowInv(s.flow, s.workers) && ExitInv(c, s) && j < |s.workers| && s.workers[j].Sending?
    ensures s.workers[j].k < |s.flow.out| + c.workers
  {
    HandReceived(s.flow, s.workers, j);
    FlowSizes(s.flow, s.workers);
    HandsHere(s.workers);
  }

  lemma OrderStep(c: Config, s: State, a: Action)
    requires Inv(c, s) && Step(c, s, a).Some?
    ensures OrderInv(c, Step(c, s, a).value.flow)
  {
    hide FlowInv, ExitInv;
    if a.Emit? && a.j < |s.workers| && s.workers[a.j].Sending? { NotTooLate(c, s, a.j); }
  }

  lemma ExitStep(c: Config, s: State, a: Action)
    requires ExitInv(c, s) && Step(c, s, a).Some?
    ensures ExitInv(c, Step(c, s, a).value)
  {
    if !a.Cancel? && !a.CloseInput? && !a.CloseOutput? {
      var w := Step(c, s, a).value.workers[a.j];
      SumUpdate(Here, s.workers, a.j, w);
      SumMember(Here, s.workers, a.j);
    }
  }

  lemma InvStep(c: Config, s: State, a: Action)
    requires Inv(c, s) && Step(c, s, a).Some?
    ensures Inv(c, Step(c, s, a).value)
  {
    FlowStep(c, s, a);
    OrderStep(c, s, a);
    ExitStep(c, s, a);
    hide FlowInv, OrderInv, ExitInv, Step;
  }

  lemma ReachableInv(c: Config, s: State)
    requires Reaches(Steps(c), Init(c), s)
    ensures Inv(c, s)
  {
    var inv := (x: State) => Inv(c, x);
    forall x, a | inv(x) && Steps(c)(x, a).Some?
      ensures inv(Steps(c)(x, a).value)
    {
      InvStep(c, x, a);
    }
    SumConstant(Here, Init(c).workers, 1);
    BagEmpty(InHand, Init(c).workers);
    ReachesInductive(Steps(c), inv, Init(c), s);
  }

  /**
    In every reachable state: the values received are those emitted, in hand or
    dropped, with at most one per worker in hand or dropped; the p-th output
    comes from an input at most w - 1 places later; nobody sends on the closed
    output.
   */
  lemma Conserved(c: Config, s: State)
    requires Reaches(Steps(c), Init(c), s)
    ensures multiset(Indices(s.flow.received)) == multiset(s.flow.out) + s.flow.dropped + Bag(InHand, s.workers)
    ensures |Bag(InHand, s.workers)| + |s.flow.dropped| <= c.workers
    ensures forall p :: 0 <= p < |s.flow.out| ==> s.flow.out[p] <= p + c.workers - 1
    ensures !s.panicked
  {
    ReachableInv(c, s);
    HandsHere(s.workers);
  }

  // ---- the whole output ----

  /** The output closed without a cancellation carries every input value once. */
  ghost predicate CarriesEverything(c: Config) {
    forall s :: Reaches(Steps(c), Init(c), s) && s.outClosed && !s.cancelled
      ==> multiset(s.flow.out) == multiset(Indices(c.n))
  }

  lemma ClosedOutput(c: Config, s: State)
    requires c.workers > 0 && Reaches(Steps(c), Init(c), s) && s.outClosed && !s.cancelled
    ensures multiset(s.flow.out) == multiset(Indices(c.n))
  {
    ReachableInv(c, s);
    HandsHere(s.workers);
  }

  /** It does exactly when there is a worker, or nothing to carry. */
  lemma CarriesEverythingExactly(c: Config)
    ensures CarriesEverything(c) <==> c.workers > 0 || c.n == 0
  {
    if c.workers > 0 {
      forall s | Reaches(Steps(c), Init(c), s) && s.outClosed && !s.cancelled
        ensures multiset(s.flow.out) == multiset(Indices(c.n))
      {
        ClosedOutput(c, s);
      }
    } else if c.n == 0 {
      forall s | Reaches(Steps(c), Init(c), s)
        ensures s.flow.out == []
      {
        ReachableInv(c, s);
        FlowSizes(s.flow, s.workers);
      }
    } else {
      ReachesRefl(Steps(c), Init(c));
      ReachesStep(Steps(c), Init(c), Init(c), CloseOutput);
      var s := Step(c, Init(c), CloseOutput).value;
      assert |multiset(Indices(c.n))| == c.n;
      assert |multiset(s.flow.out)| == 0;
    }
  }

  function Values<T, U>(fn: T -> U, input: seq<T>, idx: seq<nat>): seq<U>
    requires forall p :: 0 <= p < |idx| ==> idx[p] < |input|
  {
    seq(|idx|, p requires 0 <= p < |idx| => fn(input[idx[p]]))
  }

  function Without(s: seq<nat>, q: nat): seq<nat>
    requires q < |s|
  {
    s[..q] + s[q + 1..]
  }

  lemma WithoutOne(s: seq<nat>, q: nat)
    requires q < |s|
    ensures multiset(Without(s, q)) == multiset(s) - multiset{s[q]}
  {
    assert s == s[..q] + [s[q]] + s[q + 1..];
  }

  lemma ValuesWithoutOne<T, U>(fn: T -> U, input: seq<T>, s: seq<nat>, q: nat)
    requires q < |s| && forall p :: 0 <= p < |s| ==> s[p] < |input|
    ensures forall p :: 0 <= p < |Without(s, q)| ==> Without(s, q)[p] < |input|
    ensures multiset(Values(fn, input, s)) == multiset(Values(fn, input, Without(s, q))) + multiset{fn(input[s[q]])}
  {
    var v, l, r := fn(input[s[q]]), Values(fn, input, s[..q]), Values(fn, input, s[q + 1..]);
    assert Values(fn, input, s) == l + [v] + r;
    assert Values(fn, input, Without(s, q)) == l + r;
  }

  /** Reordering the indices reorders the values. */
  lemma {:induction false} ValuesPermute<T, U>(fn: T -> U, input: seq<T>, xs: seq<nat>, ys: seq<nat>)
    requires forall p :: 0 <= p < |xs| ==> xs[p] < |input|
    requires forall p :: 0 <= p < |ys| ==> ys[p] < |input|
    requires multiset(xs) == multiset(ys)
    ensures multiset(Values(fn, input, xs)) == multiset(Values(fn, input, ys))
    decreases |xs|
  {
    assert |multiset(xs)| == |xs| && |multiset(ys)| == |ys|;
    if xs != [] {
      assert xs[0] in multiset(ys);
      var q :| 0 <= q < |ys| && ys[q] == xs[0];
      WithoutOne(xs, 0);
      WithoutOne(ys, q);
      ValuesWithoutOne(fn, input, xs, 0);
      ValuesWithoutOne(fn, input, ys, q);
      hide Values;
      ValuesPermute(fn, input, Without(xs, 0), Without(ys, q));
    }
  }

  /** The mapped output is a permutation of the mapped input. */
  lemma OutputIsPermutation<T, U>(c: Config, s: State, fn: T -> U, input: seq<T>)
    requires |input| == c.n && c.workers > 0 && Reaches(Steps(c), Init(c), s) && s.outClosed && !s.cancelled
    ensures forall p :: 0 <= p < |s.flow.out| ==> s.flow.out[p] < |input|
    ensures multiset(Values(fn, input, s.flow.out)) == multiset(seq(|input|, i requires 0 <= i < |input| => fn(input[i])))
  {
    ClosedOutput(c, s);
    forall p | 0 <= p < |s.flow.out| ensures s.flow.out[p] < |input| {
      assert s.flow.out[p] in multiset(s.flow.out);
      assert s.flow.out[p] in Indices(c.n);
    }
    ValuesPermute(fn, input, s.flow.out, Indices(c.n));
    assert Values(fn, input, Indices(c.n)) == seq(|input|, i requires 0 <= i < |input| => fn(input[i]));
  }

  // ---- every run ends ----

  function Rank(w: Worker): nat {
    match w case Receiving => 1 case Sending(_) => 2 case Gone => 0
  }

  function StepsLeft(c: Config, s: State): nat
    requires s.flow.received <= c.n
  {
    2 * (c.n - s.flow.received) + Sum(Rank, s.workers) + (if s.outClosed then 0 else 1)
  }

  predicate Internal(a: Action) { !a.Cancel? && !a.CloseInput? }

  /** The output is open as long as a worker is there. */
  lemma OutOpen(c: Config, s: State, j: nat)
    requires ExitInv(c, s) && j < |s.workers|
    ensures s.workers[j].Gone? || !s.outClosed
  {
    SumMember(Here, s.workers, j);
  }

  lemma WorkUsesUp(c: Config, s: State, j: nat, a: Action)
    requires ExitInv(c, s) && j < |s.workers| && WorkStep(c, s, j, a).Some?
    ensures var t := WorkStep(c, s, j, a).value; t.flow.received <= c.n && StepsLeft(c, t) < StepsLeft(c, s)
  {
    OutOpen(c, s, j);
    SumUpdate(Rank, s.workers, j, WorkStep(c, s, j, a).value.workers[j]);
    hide ExitInv;
    assert s.flow.received <= c.n;
  }

  /** Every step of a worker or of the closing goroutine uses up what is left. */
  lemma StepUsesUp(c: Config, s: State, a: Action)
    requires ExitInv(c, s) && Step(c, s, a).Some?
    ensures var t := Step(c, s, a).value;
      && t.flow.received <= c.n
      && (if Internal(a) then StepsLeft(c, t) < StepsLeft(c, s) else StepsLeft(c, t) == StepsLeft(c, s))
  {
    if Internal(a) && !a.CloseOutput? {
      WorkUsesUp(c, s, a.j, a);
      hide WorkStep, StepsLeft;
    }
  }

  function InternalSteps(run: seq<Action>): nat {
    if run == [] then 0 else (if Internal(run[0]) then 1 else 0) + InternalSteps(run[1..])
  }

  lemma {:induction false} RunUsesUp(c: Config, s: State, run: seq<Action>, t: State)
    requires ExitInv(c, s) && Exec(Steps(c), s, run) == Some(t)
    ensures ExitInv(c, t) && InternalSteps(run) + StepsLeft(c, t) <= StepsLeft(c, s)
    decreases |run|
  {
    if run != [] {
      ExitStep(c, s, run[0]);
      StepUsesUp(c, s, run[0]);
      hide StepsLeft, Step;
      RunUsesUp(c, Step(c, s, run[0]).value, run[1..], t);
    }
  }

  /** Every run makes at most two steps for each value, one for each worker, and the one that closes the output. */
  lemma EveryRunEnds(c: Config, run: seq<Action>, t: State)
    requires Exec(Steps(c), Init(c), run) == Some(t)
    ensures InternalSteps(run) <= 2 * c.n + c.workers + 1
  {
    SumConstant(Here, Init(c).workers, 1);
    SumConstant(Rank, Init(c).workers, 1);
    RunUsesUp(c, Init(c), run, t);
  }

  ghost predicate AtRest(c: Config, s: State) {
    forall a :: Internal(a) ==> Step(c, s, a).None?
  }

  /**
    With a draining consumer, a run that rests after the input has closed has closed its output and let
    every worker go.
   */
  lemma RestMeansClosed(c: Config, s: State)
    requires Reaches(Steps(c), Init(c), s) && AtRest(c, s) && (s.inClosed || s.cancelled)
    ensures s.outClosed && forall j :: 0 <= j < |s.workers| ==> s.workers[j].Gone?
  {
    ReachableInv(c, s);
    forall j: nat | j < |s.workers| ensures s.workers[j].Gone? {
      assert Internal(Emit(j)) && Internal(SeeClosed(j)) && Internal(SeeCancel(j));
    }
    SumZero(Here, s.workers);
    assert Internal(CloseOutput);
  }

  /** After a cancellation all this holds without a consumer: a worker with a value in hand drops it and leaves. */
  lemma NothingLeaks(c: Config, s: State)
    requires Reaches(Steps(c), Init(c), s) && s.cancelled
    requires Step(c, s, CloseOutput).None? && forall j :: Step(c, s, SeeCancel(j)).None?
    ensures s.outClosed && forall j :: 0 <= j < |s.workers| ==> s.workers[j].Gone?
  {
    ReachableInv(c, s);
    forall j: nat | j < |s.workers| ensures s.workers[j].Gone? {
      assert Step(c, s, SeeCancel(j)).None?;
    }
    SumZero(Here, s.workers);
  }

  lemma SomebodyLeft(ws: seq<Worker>, j: nat)
    requires j < |ws| && ws[j].Gone?
    ensures Sum(Here, ws) < |ws|
  {
    SumUpdate(Here, ws, j, Receiving);
    SumAtMost(Here, ws[j := Receiving], 1);
  }

  /**
    Without a cancellation a stage with a worker comes to rest only once it has carried every value, whether
    or not its input has closed yet: then its source can close it, and with it closed so is the output.
   */
  lemma RestMeansComplete(c: Config, s: State)
    requires Reaches(Steps(c), Init(c), s) && AtRest(c, s) && c.workers > 0 && !s.cancelled
    ensures s.flow.received == c.n && multiset(s.flow.out) == multiset(Indices(c.n))
    ensures if s.inClosed then s.outClosed else Step(c, s, CloseInput).Some?
  {
    ReachableInv(c, s);
    if s.inClosed { RestMeansClosed(c, s); }
    assert Internal(Receive(0));
    if s.workers[0].Gone? { SomebodyLeft(s.workers, 0); }
    forall j: nat | j < |s.workers| ensures !s.workers[j].Sending? {
      assert Internal(Emit(j));
    }
    BagEmpty(InHand, s.workers);
    assert s.flow.received == c.n;
  }
}
