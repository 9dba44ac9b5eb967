/**
  The output of a supervised, restarting ward: wards that replay a list of ints
  until they meet a negative one, each publishing its own stream into a bridge
  whose every inner stream passes through a forwarding goroutine. Wards are
  started and cancelled at any time and in any number, by whatever supervises
  them.
 */
module Healing {
  import opened Options
  import opened Runs
  import Bridge

  // pos: the index of the next int; emitted: history
  datatype WardPc = Publishing | Emitting(pos: nat) | Exited
  datatype Ward = Ward(pc: WardPc, cancelled: bool, emitted: seq<int>)

  // the forwarding goroutine of the current inner stream, by ward
  datatype Forwarder = Nobody | Receiving(w: nat) | Handing(w: nat, v: int) | Closed(w: nat)

  /**
    main is the bridge goroutine: the one of the plain bridge, reading from
    the forwarder; but it does not watch the context while it ranges over it.
    order: the wards whose streams it has taken, in order.
   */
  datatype State = State(cancelled: bool, wards: seq<Ward>, fwd: Forwarder, main: Bridge.State<int>, order: seq<nat>)

  datatype Action =
    | StartWard
    | CancelWard(w: nat)
    | CancelParent
    | Publish(w: nat)      // the ward's stream is taken by the bridge
    | Emit(w: nat)         // the ward's next int is taken by the forwarder
    | Fail(w: nat)         // the ward meets a negative
    | Halt(w: nat)         // the ward sees its context cancelled
    | InnerEnds            // the forwarder finds the ward's stream closed
    | ForwardHalts         // the forwarder sees the context cancelled, dropping what it holds
    | Pass                 // forwarder to bridge
    | RangeEnds            // the bridge finds the forwarder's stream closed
    | Output               // bridge to consumer
    | MainHalts

  function Init(): State { State(false, [], Nobody, Bridge.Init(), []) }

  function SetWard(s: State, w: nat, ward: Ward): State
    requires w < |s.wards|
  {
    s.(wards := s.wards[w := ward])
  }

  /** The bridge goroutine makes the given move. */
  function MainStep(s: State, c: Bridge.Choice<int>): Option<State> {
    match Bridge.Step(s.main, c)
    case None => None
    case Some(m) => Some(s.(main := m))
  }

  /** The ward is in a select: publishing its stream, or offering an int that is not negative. */
  predicate AtSelect(ints: seq<int>, d: Ward) {
    d.pc.Publishing? || (d.pc.Emitting? && d.pc.pos < |ints| && ints[d.pc.pos] >= 0)
  }

  function WardStep(ints: seq<int>, s: State, w: nat, a: Action): Option<State>
    requires w < |s.wards|
  {
    var d := s.wards[w];
    match a
    case CancelWard(_) => Some(SetWard(s, w, d.(cancelled := true)))
    case Publish(_) =>
      if d.pc.Publishing? && s.main.pc.Outer? then
        MainStep(SetWard(s, w, d.(pc := Emitting(0))).(fwd := Receiving(w), order := s.order + [w]), Bridge.Stream(false))
      else None
    case Emit(_) =>
      if d.pc.Emitting? && d.pc.pos < |ints| && ints[d.pc.pos] >= 0 && s.fwd == Receiving(w) then
        var v := ints[d.pc.pos];
        Some(SetWard(s, w, d.(pc := Emitting((d.pc.pos + 1) % |ints|), emitted := d.emitted + [v])).(fwd := Handing(w, v)))
      else None
    case Fail(_) =>
      if d.pc.Emitting? && d.pc.pos < |ints| && ints[d.pc.pos] < 0 then Some(SetWard(s, w, d.(pc := Exited))) else None
    case Halt(_) =>
      if (d.cancelled || s.cancelled) && AtSelect(ints, d) then Some(SetWard(s, w, d.(pc := Exited))) else None
    case _ => None
  }

  function Step(ints: seq<int>, s: State, a: Action): Option<State> {
    match a
    case StartWard => Some(s.(wards := s.wards + [Ward(Publishing, false, [])]))
    case CancelParent => Some(s.(cancelled := true))
    case InnerEnds =>
      if s.fwd.Receiving? && s.fwd.w < |s.wards| && s.wards[s.fwd.w].pc.Exited? then Some(s.(fwd := Closed(s.fwd.w)))
      else None
    case ForwardHalts =>
      if s.cancelled && (s.fwd.Receiving? || s.fwd.Handing?) then Some(s.(fwd := Closed(s.fwd.w))) else None
    case Pass =>
      if s.fwd.Handing? && s.main.pc.Inner? then MainStep(s.(fwd := Receiving(s.fwd.w)), Bridge.Value(s.fwd.v)) else None
    case RangeEnds => if s.fwd.Closed? && s.main.pc.Inner? then MainStep(s, Bridge.InnerClosed) else None
    case Output => if s.main.pc.Holding? then MainStep(s, Bridge.Accepted) else None
    case MainHalts => if s.cancelled && !s.main.pc.Inner? then MainStep(s, Bridge.CtxDone) else None
    case _ => if a.w < |s.wards| then WardStep(ints, s, a.w, a) else None
  }

  function Steps(ints: seq<int>): (State, Action) -> Option<State> {
    (s, a) => Step(ints, s, a)
  }

  // ---- the invariant ----

  /** What a ward has emitted follows the ints, over and over, and stops before the first negative. */
  ghost predicate Follows(ints: seq<int>, e: seq<int>) {
    forall i :: 0 <= i < |e| ==> ints != [] && e[i] == ints[i % |ints|] >= 0
  }

  /** Which of the ints comes after n of them; for an empty list the loops go round without getting anywhere. */
  function Position(ints: seq<int>, n: nat): nat { if ints == [] then 0 else n % |ints| }

  ghost predicate WardOk(ints: seq<int>, d: Ward) {
    && Follows(ints, d.emitted)
    && (d.pc.Emitting? ==> d.pc.pos == Position(ints, |d.emitted|))
    && (d.pc.Publishing? ==> d.emitted == [])
  }

  /** At most its last value is missing. */
  predicate AllButTheLast(block: seq<int>, emitted: seq<int>) { block <= emitted && |emitted| <= |block| + 1 }

  /** The bridge has what each ward emitted but for one value; without a cancellation, all of it before it moves on. */
  ghost predicate BlockOk(d: Ward, block: seq<int>, past: bool) {
    && AllButTheLast(block, d.emitted) && !d.pc.Publishing?
    && (past ==> block == d.emitted && d.pc.Exited?)
  }

  ghost predicate OrderOk(wards: seq<Ward>, order: seq<nat>) {
    && (forall j :: 0 <= j < |order| ==> order[j] < |wards|)
    && (forall i, j :: 0 <= i < j < |order| ==> order[i] != order[j])
  }

  /** The inner stream of the j-th published ward is behind the bridge. */
  predicate Past(s: State, j: nat) {
    !s.cancelled && (j + 1 < |s.order| || s.main.pc.Outer? || s.fwd.Closed?)
  }

  ghost predicate BlocksOk(s: State) {
    && OrderOk(s.wards, s.order) && |s.order| == |s.main.blocks|
    && forall j :: 0 <= j < |s.order| ==> BlockOk(s.wards[s.order[j]], s.main.blocks[j], Past(s, j))
  }

  /** The forwarder works for the last ward taken, and holds at most the one value the bridge is behind. */
  ghost predicate ForwardOk(s: State) {
    var m := |s.order|;
    && |s.main.blocks| == m
    && ((s.fwd.Receiving? || s.fwd.Handing?) ==>
         m > 0 && s.fwd.w == s.order[m - 1] < |s.wards| && !s.main.pc.Outer?
         && s.wards[s.fwd.w].emitted == s.main.blocks[m - 1] + (if s.fwd.Handing? then [s.fwd.v] else []))
    && (s.fwd.Nobody? ==> m == 0)
    && (s.main.pc.Cancelled? ==> s.cancelled) && !s.main.pc.Finished?
  }

  ghost predicate Inv(ints: seq<int>, s: State) {
    && Bridge.Inv(s.main)
    && (forall w :: 0 <= w < |s.wards| ==> WardOk(ints, s.wards[w]))
    && BlocksOk(s)
    && ForwardOk(s)
  }

  lemma MulAway(d: int, k: nat)
    ensures (d >= 1 ==> d * k >= k) && (d <= -1 ==> d * k <= -(k as int))
  {
  }

  lemma ModUnique(n: nat, k: nat, q: nat, r: nat)
    requires k > 0 && n == q * k + r && r < k
    ensures n % k == r
  {
    var d: int := q - n / k;
    MulAway(d, k);
    assert n == (n / k) * k + n % k;
    assert d * k == n % k - r;
  }

  lemma NextMod(n: nat, k: nat)
    requires k > 0
    ensures (n % k + 1) % k == (n + 1) % k
  {
    var q, r := n / k, n % k;
    assert n + 1 == q * k + (r + 1);
    if r + 1 == k {
      assert n + 1 == (q + 1) * k + 0;
      ModUnique(n + 1, k, q + 1, 0);
      ModUnique(k, k, 1, 0);
    } else {
      ModUnique(n + 1, k, q, r + 1);
      ModUnique(r + 1, k, 0, r + 1);
    }
  }

  lemma NextInt(ints: seq<int>, d: Ward)
    requires WardOk(ints, d) && d.pc.Emitting? && d.pc.pos < |ints| && ints[d.pc.pos] >= 0
    ensures WardOk(ints, d.(pc := Emitting((d.pc.pos + 1) % |ints|), emitted := d.emitted + [ints[d.pc.pos]]))
  {
    var n := |d.emitted|;
    NextMod(n, |ints|);
  }

  // ---- one step keeps it ----

  lemma WardOkStep(ints: seq<int>, s: State, w: nat, a: Action)
    requires w < |s.wards| && WardOk(ints, s.wards[w]) && WardStep(ints, s, w, a).Some?
    ensures var t := WardStep(ints, s, w, a).value;
      |t.wards| == |s.wards| && t.wards == s.wards[w := t.wards[w]] && WardOk(ints, t.wards[w])
  {
    if a.Emit? {
      NextInt(ints, s.wards[w]);
      hide Follows;
    }
  }

  lemma WardsOkStep(ints: seq<int>, s: State, a: Action)
    requires Step(ints, s, a).Some?
    requires forall w :: 0 <= w < |s.wards| ==> WardOk(ints, s.wards[w])
    ensures forall w :: 0 <= w < |Step(ints, s, a).value.wards| ==> WardOk(ints, Step(ints, s, a).value.wards[w])
  {
    if a.StartWard? || a.CancelParent? || a.InnerEnds? || a.ForwardHalts? || a.Pass? || a.RangeEnds?
       || a.Output? || a.MainHalts? {
    } else {
      hide WardStep, WardOk;
      WardOkStep(ints, s, a.w, a);
    }
  }

  lemma MainMoves(ints: seq<int>, s: State, a: Action)
    requires Step(ints, s, a).Some?
    ensures var t := Step(ints, s, a).value; t.main == s.main || exists c :: Bridge.Step(s.main, c) == Some(t.main)
  {
    var t := Step(ints, s, a).value;
    match a
    case Publish(_) => assert Bridge.Step(s.main, Bridge.Stream(false)) == Some(t.main);
    case Pass => assert Bridge.Step(s.main, Bridge.Value(s.fwd.v)) == Some(t.main);
    case RangeEnds => assert Bridge.Step(s.main, Bridge.InnerClosed) == Some(t.main);
    case Output => assert Bridge.Step(s.main, Bridge.Accepted) == Some(t.main);
    case MainHalts => assert Bridge.Step(s.main, Bridge.CtxDone) == Some(t.main);
    case _ =>
  }

  lemma BridgeOkStep(ints: seq<int>, s: State, a: Action)
    requires Bridge.Inv(s.main) && Step(ints, s, a).Some?
    ensures Bridge.Inv(Step(ints, s, a).value.main)
  {
    MainMoves(ints, s, a);
    var t := Step(ints, s, a).value;
    if t.main != s.main {
      var c :| Bridge.Step(s.main, c) == Some(t.main);
      Bridge.InvStep(s.main, c);
    }
    hide Bridge.Inv, Step, Bridge.Step;
  }

  ghost predicate FlowOk(s: State) { BlocksOk(s) && ForwardOk(s) }

  /** A ward changes without emitting: it is cancelled, or it exits. */
  lemma WardMoves(s: State, w: nat, d: Ward)
    requires FlowOk(s) && w < |s.wards| && d.emitted == s.wards[w].emitted
    requires d.pc == s.wards[w].pc || d.pc.Exited?
    ensures FlowOk(SetWard(s, w, d))
  {
    var t := SetWard(s, w, d);
    forall j | 0 <= j < |t.order|
      ensures BlockOk(t.wards[t.order[j]], t.main.blocks[j], Past(t, j))
    {
      assert BlockOk(s.wards[s.order[j]], s.main.blocks[j], Past(s, j));
    }
  }

  lemma WardPublishes(ints: seq<int>, s: State, w: nat)
    requires FlowOk(s) && w < |s.wards| && WardOk(ints, s.wards[w]) && WardStep(ints, s, w, Publish(w)).Some?
    ensures FlowOk(WardStep(ints, s, w, Publish(w)).value)
  {
    var t := WardStep(ints, s, w, Publish(w)).value;
    hide Follows;
    forall j | 0 <= j < |s.order|
      ensures s.order[j] != w
    {
      assert BlockOk(s.wards[s.order[j]], s.main.blocks[j], Past(s, j));
    }
    forall j | 0 <= j < |t.order|
      ensures BlockOk(t.wards[t.order[j]], t.main.blocks[j], Past(t, j))
    {
      if j < |s.order| { assert BlockOk(s.wards[s.order[j]], s.main.blocks[j], Past(s, j)); }
    }
  }

  lemma WardEmits(ints: seq<int>, s: State, w: nat)
    requires FlowOk(s) && w < |s.wards| && WardStep(ints, s, w, Emit(w)).Some?
    ensures FlowOk(WardStep(ints, s, w, Emit(w)).value)
  {
    var t := WardStep(ints, s, w, Emit(w)).value;
    forall j | 0 <= j < |t.order|
      ensures BlockOk(t.wards[t.order[j]], t.main.blocks[j], Past(t, j))
    {
      assert BlockOk(s.wards[s.order[j]], s.main.blocks[j], Past(s, j));
    }
  }

  /** The forwarder hands over its value; the wards stay. */
  lemma PassMoves(ints: seq<int>, s: State)
    requires FlowOk(s) && Step(ints, s, Pass).Some?
    ensures FlowOk(Step(ints, s, Pass).value)
  {
    var t := Step(ints, s, Pass).value;
    forall j | 0 <= j < |t.order|
      ensures BlockOk(t.wards[t.order[j]], t.main.blocks[j], Past(t, j))
    {
      assert BlockOk(s.wards[s.order[j]], s.main.blocks[j], Past(s, j));
    }
  }

  /** The forwarder or the bridge moves alone. */
  lemma PipeMoves(ints: seq<int>, s: State, a: Action)
    requires FlowOk(s) && Step(ints, s, a).Some?
    requires a.InnerEnds? || a.ForwardHalts? || a.RangeEnds? || a.Output? || a.MainHalts?
    ensures FlowOk(Step(ints, s, a).value)
  {
    var t := Step(ints, s, a).value;
    assert t.main.blocks == s.main.blocks && t.wards == s.wards && t.order == s.order;
    hide Bridge.Extend, WardStep;
    forall j | 0 <= j < |t.order|
      ensures BlockOk(t.wards[t.order[j]], t.main.blocks[j], Past(t, j))
    {
      assert BlockOk(s.wards[s.order[j]], s.main.blocks[j], Past(s, j));
    }
  }

  lemma StartKeeps(s: State)
    requires FlowOk(s)
    ensures FlowOk(s.(wards := s.wards + [Ward(Publishing, false, [])]))
  {
    var t := s.(wards := s.wards + [Ward(Publishing, false, [])]);
    forall j | 0 <= j < |t.order|
      ensures BlockOk(t.wards[t.order[j]], t.main.blocks[j], Past(t, j))
    {
      assert BlockOk(s.wards[s.order[j]], s.main.blocks[j], Past(s, j));
    }
  }

  lemma CancelKeeps(s: State)
    requires FlowOk(s)
    ensures FlowOk(s.(cancelled := true))
  {
    var t := s.(cancelled := true);
    forall j | 0 <= j < |t.order|
      ensures BlockOk(t.wards[t.order[j]], t.main.blocks[j], Past(t, j))
    {
      assert BlockOk(s.wards[s.order[j]], s.main.blocks[j], Past(s, j));
    }
  }

  lemma FlowStep(ints: seq<int>, s: State, a: Action)
    requires Inv(ints, s) && Step(ints, s, a).Some?
    ensures FlowOk(Step(ints, s, a).value)
  {
    hide WardOk, Bridge.Inv, Bridge.Step;
    match a
    case StartWard => StartKeeps(s);
    case CancelParent => CancelKeeps(s);
    case CancelWard(w) => WardMoves(s, w, Step(ints, s, a).value.wards[w]);
    case Fail(w) => WardMoves(s, w, Step(ints, s, a).value.wards[w]);
    case Halt(w) => WardMoves(s, w, Step(ints, s, a).value.wards[w]);
    case Publish(w) => WardPublishes(ints, s, w);
    case Emit(w) => WardEmits(ints, s, w);
    case Pass => PassMoves(ints, s);
    case _ => PipeMoves(ints, s, a);
  }

  lemma KeepsInv(ints: seq<int>, s: State, a: Action)
    requires Inv(ints, s) && Step(ints, s, a).Some?
    ensures Inv(ints, Step(ints, s, a).value)
  {
    hide Step, BlocksOk, ForwardOk, Bridge.Inv, WardOk;
    WardsOkStep(ints, s, a);
    BridgeOkStep(ints, s, a);
    FlowStep(ints, s, a);
  }

  lemma ReachableInv(ints: seq<int>, s: State)
    requires Reaches(Steps(ints), Init(), s)
    ensures Inv(ints, s)
  {
    assert Inv(ints, Init());
    hide Step, Init, Inv;
    var inv := (x: State) => Inv(ints, x);
    forall x, a | inv(x) && Steps(ints)(x, a).Some?
      ensures inv(Steps(ints)(x, a).value)
    {
      KeepsInv(ints, x, a);
    }
    ReachesInductive(Steps(ints), inv, Init(), s);
  }

  // ---- the restart grammar ----

  /** A block of output: ints in order from the start, repeated, and never up to a negative. */
  ghost predicate IsBlock(ints: seq<int>, block: seq<int>) {
    && (block != [] ==> ints != [])
    && (forall i :: 0 <= i < |block| ==> block[i] == ints[i % |ints|])
    && (forall m :: 0 <= m < |ints| && ints[m] < 0 ==> |block| <= m)
  }

  lemma SmallMod(m: nat, k: nat)
    requires m < k
    ensures m % k == m
  {
  }

  lemma FollowsIsBlock(ints: seq<int>, e: seq<int>, block: seq<int>)
    requires Follows(ints, e) && block <= e
    ensures IsBlock(ints, block) && forall v :: v in block ==> v >= 0
  {
    forall i | 0 <= i < |block|
      ensures ints != [] && block[i] == ints[i % |ints|]
    {
      assert block[i] == e[i];
    }
    if block != [] { assert e[0] == block[0]; }
    if m :| 0 <= m < |ints| && ints[m] < 0 && |block| > m {
      assert e[m] == ints[m % |ints|];
      SmallMod(m, |ints|);
    }
  }

  /**
    Over every run with any number of restarts: the output is a prefix of the
    concatenation of one block for each ward published, in order and never
    interleaved, at most one value short of what the bridge has received; each
    block is what that ward emitted, but for at most the last value, and without
    a cancellation every block but the last is all of it.
   */
  lemma RestartGrammar(ints: seq<int>, s: State)
    requires Reaches(Steps(ints), Init(), s)
    ensures |s.main.blocks| == |s.order| && OrderOk(s.wards, s.order)
    ensures s.main.out <= Bridge.Flatten(s.main.blocks) && |Bridge.Flatten(s.main.blocks)| <= |s.main.out| + 1
    ensures forall j :: 0 <= j < |s.order| ==>
      IsBlock(ints, s.main.blocks[j]) && AllButTheLast(s.main.blocks[j], s.wards[s.order[j]].emitted)
    ensures forall j :: 0 <= j < |s.order| - 1 && !s.cancelled ==>
      s.main.blocks[j] == s.wards[s.order[j]].emitted && s.wards[s.order[j]].pc.Exited?
  {
    ReachableInv(ints, s);
    forall j | 0 <= j < |s.order|
      ensures IsBlock(ints, s.main.blocks[j]) && AllButTheLast(s.main.blocks[j], s.wards[s.order[j]].emitted)
      ensures j < |s.order| - 1 && !s.cancelled ==>
        s.main.blocks[j] == s.wards[s.order[j]].emitted && s.wards[s.order[j]].pc.Exited?
    {
      assert BlockOk(s.wards[s.order[j]], s.main.blocks[j], Past(s, j));
      assert WardOk(ints, s.wards[s.order[j]]);
      FollowsIsBlock(ints, s.wards[s.order[j]].emitted, s.main.blocks[j]);
    }
  }

  /** No negative is ever emitted, and nothing that comes after the first negative of the list. */
  lemma {:induction false} NothingNegative(blocks: seq<seq<int>>)
    requires forall j, v :: 0 <= j < |blocks| && v in blocks[j] ==> v >= 0
    ensures forall v :: v in Bridge.Flatten(blocks) ==> v >= 0
  {
    if blocks != [] {
      var n := |blocks| - 1;
      assert forall j :: 0 <= j < n ==> blocks[..n][j] == blocks[j];
      NothingNegative(blocks[..n]);
    }
  }

  lemma OutputNeverNegative(ints: seq<int>, s: State)
    requires Reaches(Steps(ints), Init(), s)
    ensures forall v :: v in s.main.out ==> v >= 0
  {
    RestartGrammar(ints, s);
    ReachableInv(ints, s);
    forall j, v | 0 <= j < |s.main.blocks| && v in s.main.blocks[j]
      ensures v >= 0
    {
      assert WardOk(ints, s.wards[s.order[j]]);
      FollowsIsBlock(ints, s.wards[s.order[j]].emitted, s.main.blocks[j]);
    }
    NothingNegative(s.main.blocks);
    forall v | v in s.main.out ensures v >= 0 {
      assert v in Bridge.Flatten(s.main.blocks);
    }
  }

  // ---- the plain bridge, over what the wards emitted ----

  /** What each published ward has emitted so far, in the order the bridge took their streams. */
  ghost function Emitted(s: State): seq<seq<int>>
    requires OrderOk(s.wards, s.order)
  {
    seq(|s.order|, j requires 0 <= j < |s.order| => s.wards[s.order[j]].emitted)
  }

  /** Until the cancellation the forwarder holds back nothing but the one value in its hand. */
  lemma ForwarderDelays(ints: seq<int>, s: State)
    requires Inv(ints, s) && !s.cancelled
    ensures s.fwd.Handing? ==> s.main.blocks != []
    ensures Emitted(s) == if s.fwd.Handing? then Bridge.Extend(s.main.blocks, s.fwd.v) else s.main.blocks
  {
    hide WardOk, Bridge.Inv;
    var all := if s.fwd.Handing? then Bridge.Extend(s.main.blocks, s.fwd.v) else s.main.blocks;
    forall j | 0 <= j < |s.order|
      ensures Emitted(s)[j] == all[j]
    {
      assert BlockOk(s.wards[s.order[j]], s.main.blocks[j], Past(s, j));
      if s.fwd.Receiving? { assert s.main.blocks[|s.order| - 1] + [] == s.main.blocks[|s.order| - 1]; }
    }
    assert Emitted(s) == all;
  }

  /**
    The wards' streams bring the bridge to where it is: they have yielded what it read, and ended where
    it went on.
   */
  lemma WardsFeed(ints: seq<int>, s: State)
    requires Inv(ints, s) && !s.cancelled
    ensures Bridge.Feeding(Emitted(s), s.main)
  {
    hide WardOk, Bridge.Flatten;
    forall j | 0 <= j < |s.order|
      ensures s.main.blocks[j] <= Emitted(s)[j] && (Past(s, j) ==> s.main.blocks[j] == Emitted(s)[j])
    {
      assert BlockOk(s.wards[s.order[j]], s.main.blocks[j], Past(s, j));
    }
    hide BlocksOk;
  }

  /**
    Until the cancellation the two-hop bridge is the plain bridge over the streams the wards emitted:
    a plain bridge fed with these streams reaches the very same state, with the same output. The
    output is a prefix of their concatenation, behind by at most the two values in the two hands, and
    all of it between two streams.
   */
  lemma RefinesBridge(ints: seq<int>, s: State)
    requires Reaches(Steps(ints), Init(), s) && !s.cancelled
    ensures OrderOk(s.wards, s.order)
    ensures Reaches(Bridge.FedSteps(Emitted(s)), Bridge.Init(), s.main)
    ensures s.main.out <= Bridge.Flatten(Emitted(s)) && |Bridge.Flatten(Emitted(s))| <= |s.main.out| + 2
    ensures s.main.pc.Outer? ==> s.main.out == Bridge.Flatten(Emitted(s))
  {
    ReachableInv(ints, s);
    WardsFeed(ints, s);
    Bridge.FedExactly(Emitted(s), s.main);
    ForwarderDelays(ints, s);
    if s.fwd.Handing? { Bridge.FlattenExtend(s.main.blocks, s.fwd.v); }
    hide WardOk, BlocksOk, Bridge.Flatten, Bridge.Extend, Emitted;
  }
}
