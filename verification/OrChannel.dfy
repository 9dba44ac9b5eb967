/**
  The or-channel: a channel that closes when any of its inputs does. Or is a
  recursion over the list of inputs; each level starts one goroutine that waits
  on at most three channels and on the channel of the next level, to which it
  hands the rest of the list and its own orDone.
 */
module OrChannel {
  import opened Options
  import opened Runs
  import opened Sums

  // In(x): an input, by the identity of the channel (inputs may repeat; a nil input is one nobody ever closes).
  // Own(k): the orDone of the k-th goroutine.
  datatype Chan = In(x: nat) | Own(k: nat)

  // ret: the returned channel, None for nil. waits[k]: what the k-th goroutine selects on.
  datatype Net = Net(ret: Option<Chan>, waits: seq<seq<Chan>>)

  /** The network Or builds; k is the number of the next goroutine. */
  function Or(channels: seq<Chan>, k: nat): (net: Net)
    ensures |channels| >= 1 ==> net.ret.Some?
    decreases |channels|
  {
    if |channels| == 0 then Net(None, [])
    else if |channels| == 1 then Net(Some(channels[0]), [])
    else if |channels| == 2 then Net(Some(Own(k)), [channels])
    else
      var deeper := Or(channels[3..] + [Own(k)], k + 1);
      Net(Some(Own(k)), [channels[..3] + [deeper.ret.value]] + deeper.waits)
  }

  function Inputs(xs: seq<nat>): seq<Chan> {
    seq(|xs|, i requires 0 <= i < |xs| => In(xs[i]))
  }

  function OrNet(xs: seq<nat>): Net { Or(Inputs(xs), 0) }

  /** OrContext appends the context's Done channel to the inputs. */
  function OrContextNet(ctx: nat, xs: seq<nat>): Net { OrNet(xs + [ctx]) }

  // ---- the shape of the network ----

  lemma {:induction false} HalfAsManyGoroutines(channels: seq<Chan>, k: nat)
    ensures |Or(channels, k).waits| == |channels| / 2
    decreases |channels|
  {
    if |channels| > 2 {
      HalfAsManyGoroutines(channels[3..] + [Own(k)], k + 1);
    }
  }

  /** Every channel given to a level is waited on by some goroutine from there on. */
  lemma {:induction false} EveryChannelWatched(channels: seq<Chan>, k: nat, c: Chan) returns (d: nat)
    requires |channels| >= 2 && c in channels
    ensures d < |Or(channels, k).waits| && c in Or(channels, k).waits[d]
    decreases |channels|
  {
    d := 0;
    if |channels| > 2 && c !in channels[..3] {
      var rest := channels[3..] + [Own(k)];
      var i :| 0 <= i < |channels| && channels[i] == c;
      assert i >= 3 && rest[i - 3] == c;
      var e := EveryChannelWatched(rest, k + 1, c);
      d := e + 1;
    }
  }

  /** Each goroutine but the last waits on the next one, and some later goroutine waits on it. */
  lemma {:induction false} Linked(channels: seq<Chan>, k: nat, j: nat) returns (d: nat)
    requires j + 1 < |Or(channels, k).waits|
    ensures var w := Or(channels, k).waits;
      Own(k + j + 1) in w[j] && j < d < |w| && Own(k + j) in w[d]
    decreases |channels|
  {
    HalfAsManyGoroutines(channels, k);
    var rest := channels[3..] + [Own(k)];
    var deeper := Or(rest, k + 1);
    HalfAsManyGoroutines(rest, k + 1);
    if j == 0 {
      assert rest[|rest| - 1] == Own(k);
      var e := EveryChannelWatched(rest, k + 1, Own(k));
      d := e + 1;
      assert Or(channels, k).waits[0][3] == Own(k + 1);
    } else {
      var e := Linked(rest, k + 1, j - 1);
      d := e + 1;
    }
  }

  predicate Known(channels: seq<Chan>, c: Chan) { c.Own? || c in channels }

  /** Goroutines wait on channels of the list they were given and on each other, on nothing else. */
  lemma {:induction false} NothingElseWatched(channels: seq<Chan>, k: nat)
    ensures var net := Or(channels, k);
      && (net.ret.Some? ==> Known(channels, net.ret.value))
      && forall d, c :: 0 <= d < |net.waits| && c in net.waits[d] ==> Known(channels, c)
    decreases |channels|
  {
    if |channels| > 2 {
      var rest := channels[3..] + [Own(k)];
      NothingElseWatched(rest, k + 1);
      assert forall c :: Known(rest, c) ==> Known(channels, c);
    }
  }

  // ---- runs ----

  /**
    A goroutine is started by the level above when that evaluates its select, then waits, wakes, and
    closes its orDone.
   */
  datatype Status = Unstarted | Started | Waiting | Woken | Finished

  datatype State = State(closed: set<nat>, level: seq<Status>)

  datatype Action = CloseInput(x: nat) | Evaluate(k: nat) | Wake(k: nat, j: nat) | Finish(k: nat)

  function Init(net: Net): State {
    State({}, seq(|net.waits|, k => if k == 0 then Started else Unstarted))
  }

  predicate IsClosed(s: State, c: Chan) {
    match c
    case In(x) => x in s.closed
    case Own(k) => k < |s.level| && s.level[k].Finished?
  }

  function Step(net: Net, s: State, a: Action): Option<State> {
    match a
    case CloseInput(x) => Some(s.(closed := s.closed + {x}))
    case Evaluate(k) =>
      // evaluating the operands of the select calls Or, which starts the next goroutine
      if k < |s.level| && s.level[k].Started? then
        var level := s.level[k := Waiting];
        Some(s.(level := if k + 1 < |level| then level[k + 1 := Started] else level))
      else None
    case Wake(k, j) =>
      if k < |s.level| && k < |net.waits| && s.level[k].Waiting? && j < |net.waits[k]| && IsClosed(s, net.waits[k][j])
      then Some(s.(level := s.level[k := Woken])) else None
    case Finish(k) =>
      if k < |s.level| && s.level[k].Woken? then Some(s.(level := s.level[k := Finished])) else None
  }

  function Steps(net: Net): (State, Action) -> Option<State> {
    (s, a) => Step(net, s, a)
  }

  /** Some input is closed. */
  ghost predicate Fired(xs: seq<nat>, s: State) {
    exists x :: x in xs && x in s.closed
  }

  /** Levels start one after another, each when the one above evaluates its select. */
  predicate Chain(level: seq<Status>) {
    && (|level| > 0 ==> !level[0].Unstarted?)
    && forall k :: 0 < k < |level| ==> (level[k].Unstarted? <==> level[k - 1].Unstarted? || level[k - 1].Started?)
  }

  ghost predicate Inv(xs: seq<nat>, s: State) {
    && |s.level| == |OrNet(xs).waits|
    && Chain(s.level)
    && (forall k :: 0 <= k < |s.level| && (s.level[k].Woken? || s.level[k].Finished?) ==> Fired(xs, s))
  }

  lemma ClosedMeansFired(xs: seq<nat>, s: State, c: Chan)
    requires Inv(xs, s) && Known(Inputs(xs), c) && IsClosed(s, c)
    ensures Fired(xs, s)
  {
    if c.In? {
      var i :| 0 <= i < |Inputs(xs)| && Inputs(xs)[i] == c;
      assert xs[i] == c.x;
    }
  }

  lemma ChainEvaluate(level: seq<Status>, k: nat)
    requires Chain(level) && k < |level| && level[k].Started?
    ensures Chain(if k + 1 < |level| then level[k := Waiting][k + 1 := Started] else level[k := Waiting])
  {
  }

  lemma InvStep(xs: seq<nat>, s: State, a: Action)
    requires Inv(xs, s) && Step(OrNet(xs), s, a).Some?
    ensures Inv(xs, Step(OrNet(xs), s, a).value)
  {
    var net := OrNet(xs);
    var t := Step(net, s, a).value;
    if a.Wake? {
      NothingElseWatched(Inputs(xs), 0);
      ClosedMeansFired(xs, s, net.waits[a.k][a.j]);
    }
    hide Or;
    if a.Evaluate? {
      ChainEvaluate(s.level, a.k);
      hide Chain;
    }
    if x :| x in xs && x in s.closed { assert x in t.closed; }
  }

  lemma ReachableInv(xs: seq<nat>, s: State)
    requires Reaches(Steps(OrNet(xs)), Init(OrNet(xs)), s)
    ensures Inv(xs, s)
  {
    var net := OrNet(xs);
    var inv := (x: State) => Inv(xs, x);
    forall x, a | inv(x) && Steps(net)(x, a).Some?
      ensures inv(Steps(net)(x, a).value)
    {
      InvStep(xs, x, a);
    }
    ReachesInductive(Steps(net), inv, Init(net), s);
  }

  /** No internal channel and no returned channel is ever closed before some input is. */
  lemma NeverEarly(xs: seq<nat>, s: State, c: Chan)
    requires Reaches(Steps(OrNet(xs)), Init(OrNet(xs)), s)
    requires c.Own? || OrNet(xs).ret == Some(c)
    requires IsClosed(s, c)
    ensures Fired(xs, s)
  {
    ReachableInv(xs, s);
    NothingElseWatched(Inputs(xs), 0);
    ClosedMeansFired(xs, s, c);
  }

  // ---- no goroutine leaks ----

  predicate Internal(a: Action) { !a.CloseInput? }

  function Rank(x: Status): nat {
    match x case Unstarted => 4 case Started => 3 case Waiting => 2 case Woken => 1 case Finished => 0
  }

  function StepsLeft(s: State): nat { Sum(Rank, s.level) }

  lemma StepUsesUp(net: Net, s: State, a: Action)
    requires Chain(s.level) && Step(net, s, a).Some?
    ensures var t := Step(net, s, a).value; if Internal(a) then StepsLeft(t) < StepsLeft(s) else StepsLeft(t) == StepsLeft(s)
  {
    match a
    case CloseInput(_) =>
    case Evaluate(k) =>
      SumUpdate(Rank, s.level, k, Waiting);
      if k + 1 < |s.level| { SumUpdate(Rank, s.level[k := Waiting], k + 1, Started); }
    case Wake(k, _) => SumUpdate(Rank, s.level, k, Woken);
    case Finish(k) => SumUpdate(Rank, s.level, k, Finished);
  }

  function InternalSteps(run: seq<Action>): nat {
    if run == [] then 0 else (if Internal(run[0]) then 1 else 0) + InternalSteps(run[1..])
  }

  lemma {:induction false} RunUsesUp(xs: seq<nat>, s: State, run: seq<Action>, t: State)
    requires Inv(xs, s) && Exec(Steps(OrNet(xs)), s, run) == Some(t)
    ensures InternalSteps(run) + StepsLeft(t) <= StepsLeft(s)
    decreases |run|
  {
    if run != [] {
      InvStep(xs, s, run[0]);
      StepUsesUp(OrNet(xs), s, run[0]);
      RunUsesUp(xs, Step(OrNet(xs), s, run[0]).value, run[1..], t);
    }
  }

  /** Every run makes at most four steps for each of the floor(n/2) goroutines. */
  lemma EveryRunEnds(xs: seq<nat>, run: seq<Action>, t: State)
    requires Exec(Steps(OrNet(xs)), Init(OrNet(xs)), run) == Some(t)
    ensures |t.level| == |xs| / 2
    ensures InternalSteps(run) <= 4 * (|xs| / 2)
  {
    var net := OrNet(xs);
    ReachesRefl(Steps(net), Init(net));
    ReachableInv(xs, Init(net));
    RunUsesUp(xs, Init(net), run, t);
    SumAtMost(Rank, Init(net).level, 4);
    HalfAsManyGoroutines(Inputs(xs), 0);
    assert Reaches(Steps(net), Init(net), t);
    ReachableInv(xs, t);
  }

  /** No goroutine can move. */
  ghost predicate AtRest(net: Net, s: State) {
    forall a :: Internal(a) ==> Step(net, s, a).None?
  }

  lemma {:induction false} AllStarted(level: seq<Status>, k: nat)
    requires Chain(level) && k < |level| && forall j :: 0 <= j < |level| ==> !level[j].Started?
    ensures !level[k].Unstarted?
  {
    if k > 0 { AllStarted(level, k - 1); }
  }

  /** At rest a goroutine one of whose channels is closed has finished; any other is waiting. */
  lemma RestingGoroutine(xs: seq<nat>, s: State, k: nat)
    requires Inv(xs, s) && AtRest(OrNet(xs), s) && k < |s.level|
    ensures s.level[k].Finished? || s.level[k].Waiting?
    ensures (exists c :: c in OrNet(xs).waits[k] && IsClosed(s, c)) ==> s.level[k].Finished?
  {
    var net := OrNet(xs);
    hide Or;
    forall j: nat | j < |s.level|
      ensures !s.level[j].Started? && !s.level[j].Woken?
    {
      assert Internal(Evaluate(j)) && Internal(Finish(j));
    }
    AllStarted(s.level, k);
    if c :| c in net.waits[k] && IsClosed(s, c) {
      var j: nat :| j < |net.waits[k]| && net.waits[k][j] == c;
      assert Internal(Wake(k, j));
    }
  }

  /** Closing goes up: a goroutine waits on the channel of the next one. */
  lemma {:induction false} FinishedUpwards(xs: seq<nat>, s: State, k: nat, d: nat)
    requires Inv(xs, s) && AtRest(OrNet(xs), s) && k <= d < |s.level| && s.level[d].Finished?
    ensures s.level[k].Finished?
    decreases d - k
  {
    if k < d {
      FinishedUpwards(xs, s, k + 1, d);
      var e := Linked(Inputs(xs), 0, k);
      assert Own(k + 1) in OrNet(xs).waits[k] && IsClosed(s, Own(k + 1));
      RestingGoroutine(xs, s, k);
    }
  }

  /** And down: some later goroutine waits on this one's orDone. */
  lemma {:induction false} FinishedDownwards(xs: seq<nat>, s: State, k: nat)
    requires Inv(xs, s) && AtRest(OrNet(xs), s) && k < |s.level| && s.level[k].Finished?
    ensures s.level[|s.level| - 1].Finished?
    decreases |s.level| - k
  {
    if k + 1 < |s.level| {
      var d := Linked(Inputs(xs), 0, k);
      assert Own(k) in OrNet(xs).waits[d] && IsClosed(s, Own(k));
      RestingGoroutine(xs, s, d);
      FinishedDownwards(xs, s, d);
    }
  }

  /**
    Once an input is closed, every run that comes to rest has all goroutines finished and all their
    channels closed.
   */
  lemma NothingLeaks(xs: seq<nat>, s: State)
    requires Reaches(Steps(OrNet(xs)), Init(OrNet(xs)), s) && AtRest(OrNet(xs), s) && Fired(xs, s)
    ensures |s.level| == |xs| / 2
    ensures forall k :: 0 <= k < |s.level| ==> s.level[k].Finished?
    ensures IsClosed(s, OrNet(xs).ret.value) || |xs| == 1
  {
    ReachableInv(xs, s);
    HalfAsManyGoroutines(Inputs(xs), 0);
    if |s.level| > 0 {
      var x :| x in xs && x in s.closed;
      var i :| 0 <= i < |xs| && xs[i] == x;
      assert Inputs(xs)[i] == In(x);
      var d := EveryChannelWatched(Inputs(xs), 0, In(x));
      assert IsClosed(s, In(x));
      RestingGoroutine(xs, s, d);
      FinishedDownwards(xs, s, d);
      forall k: nat | k < |s.level|
        ensures s.level[k].Finished?
      {
        FinishedUpwards(xs, s, k, |s.level| - 1);
      }
    }
  }

  /** What Or means: at rest, the returned channel is closed exactly when some input is. */
  lemma OrMeaning(xs: seq<nat>, s: State)
    requires |xs| >= 1 && Reaches(Steps(OrNet(xs)), Init(OrNet(xs)), s) && AtRest(OrNet(xs), s)
    ensures IsClosed(s, OrNet(xs).ret.value) <==> Fired(xs, s)
  {
    var ret := OrNet(xs).ret.value;
    if IsClosed(s, ret) { NeverEarly(xs, s, ret); }
    if Fired(xs, s) {
      NothingLeaks(xs, s);
      if |xs| == 1 {
        assert Inputs(xs)[0] == In(xs[0]) && ret == In(xs[0]);
      }
    }
  }

  /** OrContext means the same with the context as one more input. */
  lemma OrContextMeaning(ctx: nat, xs: seq<nat>, s: State)
    requires Reaches(Steps(OrContextNet(ctx, xs)), Init(OrContextNet(ctx, xs)), s) && AtRest(OrContextNet(ctx, xs), s)
    ensures IsClosed(s, OrContextNet(ctx, xs).ret.value) <==> ctx in s.closed || Fired(xs, s)
    ensures ctx in s.closed || Fired(xs, s) ==> forall k :: 0 <= k < |s.level| ==> s.level[k].Finished?
  {
    var all := xs + [ctx];
    OrMeaning(all, s);
    assert Fired(all, s) <==> ctx in s.closed || Fired(xs, s) by {
      assert forall x :: x in all <==> x in xs || x == ctx;
    }
    if Fired(all, s) { NothingLeaks(all, s); }
  }
}
