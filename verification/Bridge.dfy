/** Bridge flattens a stream of streams into one output. */
module Bridge {
  import opened Options
  import opened Runs
  import opened Sums

  // outcomes of a select: the context is done; the outer stream has an inner one (possibly nil) or is closed;
  // the inner stream has a value or is closed; the output accepts
  datatype Choice<T> = CtxDone | Stream(isNil: bool) | OuterClosed | Value(v: T) | InnerClosed | Accepted

  datatype Pc<T> = Outer | Inner | Holding(v: T) | Cancelled | Finished

  // blocks: what has been received from each inner stream, in order
  datatype State<T> = State(pc: Pc<T>, blocks: seq<seq<T>>, out: seq<T>)

  function Init<T>(): State<T> { State(Outer, [], []) }

  /** The last inner stream yields one more value. */
  function Extend<T>(blocks: seq<seq<T>>, v: T): seq<seq<T>>
    requires blocks != []
  {
    blocks[|blocks| - 1 := blocks[|blocks| - 1] + [v]]
  }

  function Step<T>(s: State<T>, c: Choice<T>): Option<State<T>> {
    match s.pc
    case Outer =>
      if c.CtxDone? then Some(s.(pc := Cancelled))
      else if c.OuterClosed? then Some(s.(pc := Finished))
      else if c.Stream? then Some(s.(pc := if c.isNil then Outer else Inner, blocks := s.blocks + [[]]))
      else None
    case Inner =>
      if c.CtxDone? then Some(s.(pc := Cancelled))
      else if c.InnerClosed? then Some(s.(pc := Outer))
      else if c.Value? && s.blocks != [] then Some(s.(pc := Holding(c.v), blocks := Extend(s.blocks, c.v)))
      else None
    case Holding(v) =>
      if c.CtxDone? then Some(s.(pc := Cancelled))
      else if c.Accepted? then Some(s.(pc := Inner, out := s.out + [v]))
      else None
    case _ => None
  }

  function Steps<T>(): (State<T>, Choice<T>) -> Option<State<T>> {
    (s, c) => Step(s, c)
  }

  function Flatten<T>(blocks: seq<seq<T>>): seq<T> {
    if blocks == [] then [] else Flatten(blocks[..|blocks| - 1]) + blocks[|blocks| - 1]
  }

  lemma FlattenExtend<T>(blocks: seq<seq<T>>, v: T)
    requires blocks != []
    ensures Flatten(Extend(blocks, v)) == Flatten(blocks) + [v]
  {
    var n := |blocks| - 1;
    assert Extend(blocks, v)[..n] == blocks[..n];
    assert Flatten(blocks[..n]) + (blocks[n] + [v]) == Flatten(blocks[..n]) + blocks[n] + [v];
  }

  lemma FlattenStart<T>(blocks: seq<seq<T>>)
    ensures Flatten(blocks + [[]]) == Flatten(blocks)
  {
    assert (blocks + [[]])[..|blocks|] == blocks;
    assert Flatten(blocks) + [] == Flatten(blocks);
  }

  /** The output is the concatenation of what was received, up to the value in hand. */
  ghost predicate Flattening<T>(s: State<T>) {
    match s.pc
    case Holding(v) => s.out + [v] == Flatten(s.blocks)
    case Cancelled => s.out <= Flatten(s.blocks) && |Flatten(s.blocks)| <= |s.out| + 1
    case Inner => s.blocks != [] && s.out == Flatten(s.blocks)
    case _ => s.out == Flatten(s.blocks)
  }

  ghost predicate Inv<T>(s: State<T>) {
    Flattening(s) && (s.pc.Holding? ==> s.blocks != [] && s.blocks[|s.blocks| - 1] != [])
  }

  lemma InvStep<T>(s: State<T>, c: Choice<T>)
    requires Inv(s) && Step(s, c).Some?
    ensures Inv(Step(s, c).value)
  {
    if c.Stream? { FlattenStart(s.blocks); }
    if s.pc.Inner? && c.Value? { FlattenExtend(s.blocks, c.v); }
    hide Flatten, Extend;
  }

  /**
    In every reachable state the output is a prefix of the concatenation of the
    inner streams, in the order they came, at most one value behind; it is the
    whole concatenation when the outer stream has closed.
   */
  lemma OutputFlattens<T(!new)>(s: State<T>)
    requires Reaches(Steps(), Init(), s)
    ensures s.out <= Flatten(s.blocks) && |Flatten(s.blocks)| <= |s.out| + 1
    ensures s.pc.Finished? ==> s.out == Flatten(s.blocks)
  {
    forall x: State<T>, c | Inv(x) && Steps()(x, c).Some?
      ensures Inv(Steps()(x, c).value)
    {
      InvStep(x, c);
    }
    ReachesInductive(Steps(), Inv, Init(), s);
  }

  // ---- inner streams with given contents ----

  /** What the streams can yield: the next value of the current one, its end once it is exhausted, the next stream. */
  ghost predicate Offers<T>(streams: seq<seq<T>>, s: State<T>, c: Choice<T>) {
    var k := |s.blocks|;
    match c
    case Stream(isNil) => k < |streams| && (isNil ==> streams[k] == [])
    case OuterClosed => k == |streams|
    case Value(v) => 0 < k <= |streams| && |s.blocks[k - 1]| < |streams[k - 1]| && v == streams[k - 1][|s.blocks[k - 1]|]
    case InnerClosed => 0 < k <= |streams| && s.blocks[k - 1] == streams[k - 1]
    case _ => true
  }

  ghost function FedSteps<T>(streams: seq<seq<T>>): (State<T>, Choice<T>) -> Option<State<T>> {
    (s, c) => if Offers(streams, s, c) then Step(s, c) else None
  }

  ghost predicate Feeding<T>(streams: seq<seq<T>>, s: State<T>) {
    var k := |s.blocks|;
    && k <= |streams|
    && (forall j :: 0 <= j < k - 1 ==> s.blocks[j] == streams[j])
    && (k > 0 ==> s.blocks[k - 1] <= streams[k - 1])
    && (k > 0 && (s.pc.Outer? || s.pc.Finished?) ==> s.blocks[k - 1] == streams[k - 1])
    && (s.pc.Finished? ==> k == |streams|)
    && ((s.pc.Inner? || s.pc.Holding?) ==> k > 0)
  }

  lemma FeedingStep<T>(streams: seq<seq<T>>, s: State<T>, c: Choice<T>)
    requires Feeding(streams, s) && Offers(streams, s, c) && Step(s, c).Some?
    ensures Feeding(streams, Step(s, c).value)
  {
  }

  lemma {:induction false} FlattenPrefix<T>(a: seq<seq<T>>, b: seq<seq<T>>)
    requires |a| <= |b| && forall j :: 0 <= j < |a| - 1 ==> a[j] == b[j]
    requires a != [] ==> a[|a| - 1] <= b[|a| - 1]
    ensures Flatten(a) <= Flatten(b)
    decreases |b|
  {
    if |a| < |b| {
      FlattenPrefix(a, b[..|b| - 1]);
    } else if a != [] {
      assert a[..|a| - 1] == b[..|b| - 1];
    }
  }

  lemma FedReachable<T(!new)>(streams: seq<seq<T>>, s: State<T>)
    requires Reaches(FedSteps(streams), Init(), s)
    ensures Inv(s) && Feeding(streams, s)
  {
    var init: State<T> := Init();
    assert Inv(init) && Feeding(streams, init);
    hide Inv, Feeding, Step, Offers, Init;
    var inv := (x: State<T>) => Inv(x) && Feeding(streams, x);
    forall x: State<T>, c | inv(x) && FedSteps(streams)(x, c).Some?
      ensures inv(FedSteps(streams)(x, c).value)
    {
      InvStep(x, c);
      FeedingStep(streams, x, c);
    }
    ReachesInductive(FedSteps(streams), inv, init, s);
  }

  /**
    The output is a prefix of the concatenation of the inner streams, and all of it when the outer
    stream has closed.
   */
  lemma EmitsConcatenation<T(!new)>(streams: seq<seq<T>>, s: State<T>)
    requires Reaches(FedSteps(streams), Init(), s)
    ensures s.out <= Flatten(streams)
    ensures s.pc.Finished? ==> s.out == Flatten(streams)
  {
    FedReachable(streams, s);
    FlattenPrefix(s.blocks, streams);
    if s.pc.Finished? { assert s.blocks == streams; }
  }

  // ---- and they yield exactly these states ----

  /** The bridge has read the first k streams to their ends. */
  lemma {:induction false} ReachOuter<T(!new)>(streams: seq<seq<T>>, k: nat)
    requires k <= |streams|
    ensures Reaches(FedSteps(streams), Init(), State(Outer, streams[..k], Flatten(streams[..k])))
    decreases k, 0
  {
    var fed, s0: State<T> := FedSteps(streams), Init();
    if k == 0 {
      ReachesRefl(fed, s0);
    } else {
      ReachInner(streams, k - 1, |streams[k - 1]|);
      var last := streams[k - 1];
      assert last[..|last|] == last && streams[..k] == streams[..k - 1] + [last];
      assert streams[..k][..k - 1] == streams[..k - 1];
      var s := Do(fed, s0, State(Inner, streams[..k], Flatten(streams[..k])), InnerClosed);
    }
  }

  /** The bridge reads the k-th stream up to its i-th value, handing on each. */
  lemma {:induction false} ReachInner<T(!new)>(streams: seq<seq<T>>, k: nat, i: nat)
    requires k < |streams| && i <= |streams[k]|
    ensures Reaches(FedSteps(streams), Init(),
                    State(Inner, streams[..k] + [streams[k][..i]], Flatten(streams[..k]) + streams[k][..i]))
    decreases k, 1, i
  {
    var fed, s0: State<T> := FedSteps(streams), Init();
    if i == 0 {
      ReachOuter(streams, k);
      var s := Do(fed, s0, State(Outer, streams[..k], Flatten(streams[..k])), Stream(false));
      assert streams[k][..0] == [] && Flatten(streams[..k]) + [] == Flatten(streams[..k]);
    } else {
      ReachInner(streams, k, i - 1);
      var v := streams[k][i - 1];
      var s := State(Inner, streams[..k] + [streams[k][..i - 1]], Flatten(streams[..k]) + streams[k][..i - 1]);
      var t := Do(fed, s0, s, Value(v));
      t := Do(fed, s0, t, Accepted);
      assert streams[k][..i] == streams[k][..i - 1] + [v];
      assert t.blocks == streams[..k] + [streams[k][..i]];
      assert t.out == Flatten(streams[..k]) + streams[k][..i];
    }
  }

  lemma SettledReached<T(!new)>(streams: seq<seq<T>>, s: State<T>)
    requires Inv(s) && Feeding(streams, s) && s.pc.Outer?
    ensures Reaches(FedSteps(streams), Init(), s)
  {
    ReachOuter(streams, |s.blocks|);
    assert s.blocks == streams[..|s.blocks|];
  }

  lemma ReadingReached<T(!new)>(streams: seq<seq<T>>, s: State<T>)
    requires Inv(s) && Feeding(streams, s) && s.pc.Inner?
    ensures Reaches(FedSteps(streams), Init(), s)
  {
    var k := |s.blocks| - 1;
    ReachInner(streams, k, |s.blocks[k]|);
    assert s.blocks[..k] == streams[..k] && streams[k][..|s.blocks[k]|] == s.blocks[k];
    assert s.blocks == streams[..k] + [s.blocks[k]];
  }

  /** The value in hand is the last one read, and the others have been handed on. */
  lemma HeldValue<T>(streams: seq<seq<T>>, s: State<T>, v: T)
    requires Inv(s) && Feeding(streams, s) && s.pc == Holding(v)
    ensures var k := |s.blocks| - 1; var i := |s.blocks[k]| - 1;
      && v == streams[k][i] && s.blocks[k] == streams[k][..i] + [v]
      && s.blocks[..k] == streams[..k] && s.out == Flatten(streams[..k]) + streams[k][..i]
  {
    var k := |s.blocks| - 1;
    var i := |s.blocks[k]| - 1;
    assert s.blocks[k] == streams[k][..i] + [streams[k][i]];
    assert s.blocks[..k] == streams[..k];
    var all := Flatten(s.blocks);
    assert all == (Flatten(streams[..k]) + streams[k][..i]) + [streams[k][i]];
    assert all[|all| - 1] == v && s.out == all[..|all| - 1];
  }

  lemma HoldingReached<T(!new)>(streams: seq<seq<T>>, s: State<T>, v: T)
    requires Inv(s) && Feeding(streams, s) && s.pc == Holding(v)
    ensures Reaches(FedSteps(streams), Init(), s)
  {
    HeldValue(streams, s, v);
    var k := |s.blocks| - 1;
    var i := |s.blocks[k]| - 1;
    ReachInner(streams, k, i);
    hide Inv, Feeding, Flatten;
    var before := State(Inner, streams[..k] + [streams[k][..i]], Flatten(streams[..k]) + streams[k][..i]);
    var t := Do(FedSteps(streams), Init(), before, Value(v));
    assert t.blocks == s.blocks;
  }

  /** So an uncancelled state is one the streams can bring a bridge to exactly when it keeps the two invariants. */
  lemma FedExactly<T(!new)>(streams: seq<seq<T>>, s: State<T>)
    requires !s.pc.Cancelled?
    ensures Reaches(FedSteps(streams), Init(), s) <==> Inv(s) && Feeding(streams, s)
  {
    if Reaches(FedSteps(streams), Init(), s) { FedReachable(streams, s); }
    if Inv(s) && Feeding(streams, s) {
      match s.pc
      case Outer => SettledReached(streams, s);
      case Finished =>
        SettledReached(streams, s.(pc := Outer));
        var t := Do(FedSteps(streams), Init(), s.(pc := Outer), OuterClosed);
      case Inner => ReadingReached(streams, s);
      case Holding(v) => HoldingReached(streams, s, v);
    }
  }

  /** Some bridge with the given inner streams has exactly this output at some time. */
  ghost predicate Outputs<T(!new)>(streams: seq<seq<T>>, out: seq<T>) {
    exists s: State<T> :: Reaches(FedSteps(streams), Init(), s) && s.out == out
  }

  /** A prefix of the concatenation ends somewhere in one of the streams. */
  lemma {:induction false} PrefixSplits<T>(streams: seq<seq<T>>, out: seq<T>) returns (k: nat, i: nat)
    requires out != [] && out <= Flatten(streams)
    ensures k < |streams| && i <= |streams[k]| && out == Flatten(streams[..k]) + streams[k][..i]
  {
    var n := |streams| - 1;
    var head, last := streams[..n], streams[n];
    if |out| <= |Flatten(head)| {
      assert out <= Flatten(head);
      k, i := PrefixSplits(head, out);
      assert head[..k] == streams[..k];
    } else {
      k, i := n, |out| - |Flatten(head)|;
      assert out == Flatten(head) + last[..i];
    }
  }

  /** What bridges output over given inner streams: the prefixes of their concatenation, and nothing else. */
  lemma OutputsExactly<T(!new)>(streams: seq<seq<T>>, out: seq<T>)
    ensures Outputs(streams, out) <==> out <= Flatten(streams)
  {
    if Outputs(streams, out) {
      var s :| Reaches(FedSteps(streams), Init(), s) && s.out == out;
      EmitsConcatenation(streams, s);
    }
    if out <= Flatten(streams) {
      if out == [] {
        ReachOuter(streams, 0);
        assert Flatten(streams[..0]) == [];
      } else {
        var k, i := PrefixSplits(streams, out);
        ReachInner(streams, k, i);
      }
    }
  }

  // ---- what a run makes of its choices ----

  /** The values that arrive, in order. */
  function Values<T>(run: seq<Choice<T>>): seq<T> {
    if run == [] then []
    else Values(run[..|run| - 1]) + (if run[|run| - 1].Value? then [run[|run| - 1].v] else [])
  }

  function IsStream<T>(c: Choice<T>): nat { if c.Stream? then 1 else 0 }
  function IsAccepted<T>(c: Choice<T>): nat { if c.Accepted? then 1 else 0 }

  /** The context is done, or the outer stream closed. */
  ghost predicate Ended<T>(run: seq<Choice<T>>) {
    exists k :: 0 <= k < |run| && (run[k].CtxDone? || run[k].OuterClosed?)
  }

  /** The last inner stream is not nil and has not closed. */
  predicate Reading<T>(run: seq<Choice<T>>) {
    run != []
    && match run[|run| - 1]
       case Stream(isNil) => !isNil
       case InnerClosed => false
       case _ => Reading(run[..|run| - 1])
  }

  /** The last value has not been handed on. */
  predicate Pending<T>(run: seq<Choice<T>>) { run != [] && run[|run| - 1].Value? }

  /** Before the end the outer stream is read between two inner ones, and each value handed on before the next is read. */
  predicate Offered<T>(run: seq<Choice<T>>, c: Choice<T>) {
    match c
    case CtxDone => true
    case Accepted => Pending(run)
    case Value(_) => Reading(run) && !Pending(run)
    case InnerClosed => Reading(run) && !Pending(run)
    case _ => !Reading(run)
  }

  ghost predicate Recorded<T>(run: seq<Choice<T>>, s: State<T>) {
    && Inv(s) && Flatten(s.blocks) == Values(run)
    && |s.blocks| == Sum(IsStream, run) && |s.out| == Sum(IsAccepted, run)
    && (s.pc.Cancelled? || s.pc.Finished? <==> Ended(run))
    && (!Ended(run) ==> (s.pc.Outer? <==> !Reading(run)) && (s.pc.Holding? <==> Pending(run)))
  }

  lemma HistoryNext<T>(run: seq<Choice<T>>, c: Choice<T>)
    ensures Values(run + [c]) == Values(run) + (if c.Value? then [c.v] else [])
    ensures Sum(IsStream, run + [c]) == Sum(IsStream, run) + IsStream(c)
    ensures Sum(IsAccepted, run + [c]) == Sum(IsAccepted, run) + IsAccepted(c)
    ensures Ended(run + [c]) <==> Ended(run) || c.CtxDone? || c.OuterClosed?
    ensures Reading(run + [c]) <==> if c.Stream? then !c.isNil else !c.InnerClosed? && Reading(run)
    ensures Pending(run + [c]) <==> c.Value?
  {
    SumAppend(IsStream, run, c);
    SumAppend(IsAccepted, run, c);
    assert (run + [c])[..|run|] == run && (run + [c])[|run|] == c;
    assert forall k :: 0 <= k < |run| ==> (run + [c])[k] == run[k];
  }

  lemma StepCounts<T>(s: State<T>, c: Choice<T>)
    requires Step(s, c).Some?
    ensures var t := Step(s, c).value;
      && Flatten(t.blocks) == Flatten(s.blocks) + (if c.Value? then [c.v] else [])
      && |t.blocks| == |s.blocks| + IsStream(c) && |t.out| == |s.out| + IsAccepted(c)
      && !s.pc.Cancelled? && !s.pc.Finished?
      && (t.pc.Cancelled? || t.pc.Finished? <==> c.CtxDone? || c.OuterClosed?)
  {
    if c.Stream? { FlattenStart(s.blocks); }
    if c.Value? { FlattenExtend(s.blocks, c.v); }
    hide Flatten;
  }

  lemma RecordedStep<T>(run: seq<Choice<T>>, s: State<T>, c: Choice<T>)
    requires Recorded(run, s) && Step(s, c).Some?
    ensures Recorded(run + [c], Step(s, c).value)
  {
    hide Inv, Flatten, Values, Ended, Reading, Pending, Sum;
    InvStep(s, c);
    HistoryNext(run, c);
    StepCounts(s, c);
  }

  lemma RunRecorded<T(!new)>(run: seq<Choice<T>>, s: State<T>)
    requires Exec(Steps(), Init(), run) == Some(s)
    ensures Recorded(run, s)
  {
    var s0: State<T>, none: seq<Choice<T>> := Init(), [];
    assert Recorded(none, s0);
    forall h: seq<Choice<T>>, x, c | Recorded(h, x) && Steps()(x, c).Some?
      ensures Recorded(h + [c], Steps()(x, c).value)
    {
      RecordedStep(h, x, c);
    }
    HistoryHolds(Steps(), Recorded, s0, run, s);
  }

  /** Over every run: what counts as received is every value that arrived, and as many are output as have been accepted. */
  lemma ReceivesWhatArrives<T(!new)>(run: seq<Choice<T>>, s: State<T>)
    requires Exec(Steps(), Init(), run) == Some(s)
    ensures Flatten(s.blocks) == Values(run) && |s.blocks| == Sum(IsStream, run)
    ensures s.out <= Values(run) && |s.out| == Sum(IsAccepted, run)
  {
    RunRecorded(run, s);
  }

  /** And these are all its runs; in particular nothing is received or output once the context is done. */
  lemma PossibleExactly<T(!new)>(run: seq<Choice<T>>, c: Choice<T>)
    requires Exec(Steps(), Init(), run).Some?
    ensures Exec(Steps(), Init(), run + [c]).Some? <==> !Ended(run) && Offered(run, c)
  {
    var s: State<T> := Exec(Steps(), Init(), run).value;
    RunRecorded(run, s);
    assert (run + [c])[..|run|] == run && (run + [c])[..|run| + 1] == run + [c];
    ExecNext(Steps(), Init(), run + [c], |run|);
    hide Values, Sum, Flatten;
  }

  /**
    The goroutine, given what each of its selects yields. It stops where the
    next outcome is not one its select offers, that is, where it is blocked.
   */
  method Bridge<T>(choices: seq<Choice<T>>) returns (out: seq<T>, used: nat, ghost s: State<T>)
    ensures used <= |choices| && Exec(Steps(), Init(), choices[..used]) == Some(s)
    ensures used < |choices| ==> Step(s, choices[used]).None?
    ensures out == s.out
  {
    out, used := [], 0;
    s := Init();
    while used < |choices|
      invariant used <= |choices| && Exec(Steps(), Init(), choices[..used]) == Some(s)
      invariant s.pc.Outer? && out == s.out
      decreases |choices| - used
    {
      if !choices[used].CtxDone? && !choices[used].OuterClosed? && !choices[used].Stream? {
        return;
      }
      ExecNext(Steps(), Init(), choices, used);
      s := Step(s, choices[used]).value;
      used := used + 1;
      if choices[used - 1].CtxDone? || choices[used - 1].OuterClosed? {
        return;
      }
      var current := !choices[used - 1].isNil;
      while current
        invariant used <= |choices| && Exec(Steps(), Init(), choices[..used]) == Some(s)
        invariant s.pc == (if current then Inner else Outer) && s.blocks != [] && out == s.out
        decreases |choices| - used
      {
        if used == |choices| || (!choices[used].CtxDone? && !choices[used].InnerClosed? && !choices[used].Value?) {
          return;
        }
        ExecNext(Steps(), Init(), choices, used);
        s := Step(s, choices[used]).value;
        used := used + 1;
        if choices[used - 1].CtxDone? {
          return;
        }
        if choices[used - 1].InnerClosed? {
          current := false;
        } else {
          var v := choices[used - 1].v;
          if used == |choices| || (!choices[used].CtxDone? && !choices[used].Accepted?) {
            return;
          }
          ExecNext(Steps(), Init(), choices, used);
          s := Step(s, choices[used]).value;
          used := used + 1;
          if choices[used - 1].CtxDone? {
            return;
          }
          out := out + [v];
        }
      }
    }
  }
}
