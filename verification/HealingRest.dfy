/** Where the wards, the forwarder and the bridge come to rest, before and after a cancellation. */
module HealingRest {
  import opened Runs
  import opened Healing
  import Bridge

  /** Everything but the supervisor's doing: the wards' steps, the forwarder's, the bridge's; the consumer keeps reading. */
  predicate Internal(a: Action) { !a.StartWard? && !a.CancelWard? && !a.CancelParent? }

  ghost predicate AtRest(ints: seq<int>, s: State) {
    forall a :: Internal(a) ==> Step(ints, s, a).None?
  }

  // ---- a ward that nobody cancels ----

  /** These are the ints before the first negative, which there is. */
  ghost predicate UpToNegative(ints: seq<int>, e: seq<int>) {
    |e| < |ints| && ints[|e|] < 0 && e == ints[..|e|] && forall i :: 0 <= i < |e| ==> ints[i] >= 0
  }

  /** It is taken by the bridge before it emits, and leaves only at a negative. */
  ghost predicate WardFails(ints: seq<int>, s: State, w: nat)
    requires w < |s.wards|
  {
    var d := s.wards[w];
    && (d.pc.Emitting? ==> w in s.order)
    && (d.pc.Exited? && !d.cancelled && !s.cancelled ==> w in s.order && UpToNegative(ints, d.emitted))
  }

  ghost predicate ExitInv(ints: seq<int>, s: State) {
    forall w :: 0 <= w < |s.wards| ==> WardFails(ints, s, w)
  }

  lemma FailsAtNegative(ints: seq<int>, d: Ward)
    requires WardOk(ints, d) && d.pc.Emitting? && d.pc.pos < |ints| && ints[d.pc.pos] < 0
    ensures UpToNegative(ints, d.emitted)
  {
    var n, k := |d.emitted|, |ints|;
    forall i | 0 <= i < n && i < k
      ensures d.emitted[i] == ints[i] >= 0
    {
      SmallMod(i, k);
      assert d.emitted[i] == ints[i % k];
    }
    SmallMod(n, k);
  }

  lemma WardExit(ints: seq<int>, s: State, w: nat, a: Action, v: nat)
    requires w < |s.wards| && v < |s.wards| && WardStep(ints, s, w, a).Some? && a != StartWard
    requires WardOk(ints, s.wards[w]) && WardFails(ints, s, v)
    ensures var t := WardStep(ints, s, w, a).value; v < |t.wards| && WardFails(ints, t, v)
  {
    if a.Fail? { FailsAtNegative(ints, s.wards[w]); }
    hide UpToNegative, WardOk, Bridge.Step;
  }

  lemma ExitStep(ints: seq<int>, s: State, a: Action)
    requires Inv(ints, s) && ExitInv(ints, s) && Step(ints, s, a).Some?
    ensures ExitInv(ints, Step(ints, s, a).value)
  {
    var t := Step(ints, s, a).value;
    hide UpToNegative, BlocksOk, ForwardOk, Bridge.Inv, Bridge.Step;
    forall v | 0 <= v < |t.wards|
      ensures WardFails(ints, t, v)
    {
      if v < |s.wards| { assert WardFails(ints, s, v); }
      if a.Publish? || a.Emit? || a.Fail? || a.Halt? || a.CancelWard? {
        assert WardOk(ints, s.wards[a.w]);
        WardExit(ints, s, a.w, a, v);
      }
    }
  }

  lemma ExitHolds(ints: seq<int>, s: State)
    requires Reaches(Steps(ints), Init(), s)
    ensures Inv(ints, s) && ExitInv(ints, s)
  {
    assert Inv(ints, Init());
    var inv := (x: State) => Inv(ints, x) && ExitInv(ints, x);
    hide Inv, ExitInv, Step;
    forall x, a | inv(x) && Steps(ints)(x, a).Some?
      ensures inv(Steps(ints)(x, a).value)
    {
      KeepsInv(ints, x, a);
      ExitStep(ints, x, a);
    }
    ReachesInductive(Steps(ints), inv, Init(), s);
  }

  // ---- rest ----

  /** An uncancelled bridge that ranges over a stream can go on, if its ward has ints. */
  lemma RangeMoves(ints: seq<int>, s: State)
    requires Inv(ints, s) && s.main.pc.Inner? && ints != []
    ensures !AtRest(ints, s)
  {
    var a :=
      match s.fwd
      case Nobody => RangeEnds
      case Closed(_) => RangeEnds
      case Handing(_, _) => Pass
      case Receiving(w) =>
        var d := s.wards[w];
        if d.pc.Exited? then InnerEnds
        else if d.pc.Emitting? && d.pc.pos < |ints| && ints[d.pc.pos] < 0 then Fail(w)
        else Emit(w);
    assert s.main.blocks != [];
    if s.fwd.Receiving? {
      var m := |s.order| - 1;
      assert BlockOk(s.wards[s.order[m]], s.main.blocks[m], Past(s, m));
      assert WardOk(ints, s.wards[s.fwd.w]);
    }
    hide BlocksOk, WardOk, Bridge.Inv;
    assert Internal(a) && Step(ints, s, a).Some?;
  }

  /**
    With nobody cancelled and something to emit: at rest every ward has been taken and has left, the bridge is
    between two streams, and the output is the ints before the first negative, once for each ward.
   */
  lemma RestMeansReplayed(ints: seq<int>, s: State)
    requires ints != [] && Reaches(Steps(ints), Init(), s) && AtRest(ints, s)
    requires !s.cancelled && forall w :: 0 <= w < |s.wards| ==> !s.wards[w].cancelled
    ensures s.main.pc.Outer? && OrderOk(s.wards, s.order) && s.main.out == Bridge.Flatten(Emitted(s))
    ensures forall w :: 0 <= w < |s.wards| ==> s.wards[w].pc.Exited? && w in s.order
    ensures forall j :: 0 <= j < |s.order| ==> UpToNegative(ints, Emitted(s)[j])
  {
    ExitHolds(ints, s);
    RefinesBridge(ints, s);
    if s.main.pc.Inner? { RangeMoves(ints, s); }
    assert Internal(Output);
    forall w: nat | w < |s.wards|
      ensures s.wards[w].pc.Exited? && w in s.order && UpToNegative(ints, s.wards[w].emitted)
    {
      assert Internal(Publish(w)) && WardFails(ints, s, w);
    }
    hide UpToNegative, Inv, ExitInv, Step;
  }

  /**
    After a cancellation nobody is left at rest, but a ward that spins over no ints; the bridge has closed its output,
    whether or not the consumer still reads.
   */
  lemma RestMeansOver(ints: seq<int>, s: State)
    requires Reaches(Steps(ints), Init(), s) && s.cancelled
    requires forall a :: Internal(a) && !a.Output? && !a.Pass? ==> Step(ints, s, a).None?
    ensures s.main.pc.Cancelled? && (s.fwd.Nobody? || s.fwd.Closed?)
    ensures forall w :: 0 <= w < |s.wards| ==> s.wards[w].pc.Exited? || (ints == [] && s.wards[w].pc.Emitting?)
  {
    ExitHolds(ints, s);
    assert Internal(ForwardHalts) && Internal(RangeEnds) && Internal(MainHalts);
    forall w: nat | w < |s.wards|
      ensures s.wards[w].pc.Exited? || (ints == [] && s.wards[w].pc.Emitting?)
    {
      assert Internal(Halt(w)) && Internal(Fail(w)) && WardOk(ints, s.wards[w]);
    }
    assert s.main.pc.Inner? ==> s.main.blocks != [];
  }
}
