/**
  What a cancellation does to the wards' output. The bridge does not watch the context while it ranges over the
  forwarder, which does; so a value can get lost in the middle of the output and later ones still come through.
 */
module HealingExact {
  import opened Runs
  import opened Healing
  import Bridge

  /** The ints that a ward gets to emit, those before the first negative, are all the same. */
  predicate Uniform(ints: seq<int>) {
    forall m :: 0 <= m < |ints| && (forall i :: 0 <= i <= m ==> ints[i] >= 0) ==> ints[m] == ints[0]
  }

  /** Whatever the two-hop bridge has output by now, a plain bridge over the wards' streams outputs too. */
  ghost predicate AsPlain(s: State) {
    OrderOk(s.wards, s.order) && Bridge.Outputs(Emitted(s), s.main.out)
  }

  // ---- streams of equal values ----

  lemma {:induction false} FlattenAll(blocks: seq<seq<int>>, x: int)
    requires forall j, v :: 0 <= j < |blocks| && v in blocks[j] ==> v == x
    ensures forall v :: v in Bridge.Flatten(blocks) ==> v == x
  {
    if blocks != [] {
      var n := |blocks| - 1;
      assert forall j :: 0 <= j < n ==> blocks[..n][j] == blocks[j];
      FlattenAll(blocks[..n], x);
    }
  }

  lemma {:induction false} FlattenLength(a: seq<seq<int>>, b: seq<seq<int>>)
    requires |a| == |b| && forall j :: 0 <= j < |a| ==> |a[j]| <= |b[j]|
    ensures |Bridge.Flatten(a)| <= |Bridge.Flatten(b)|
  {
    if a != [] { FlattenLength(a[..|a| - 1], b[..|b| - 1]); }
  }

  /** Among equal values it does not show which have got lost. */
  lemma NothingLooksLost(blocks: seq<seq<int>>, emitted: seq<seq<int>>, out: seq<int>, x: int)
    requires |blocks| == |emitted| && forall j :: 0 <= j < |blocks| ==> blocks[j] <= emitted[j]
    requires forall j, v :: 0 <= j < |emitted| && v in emitted[j] ==> v == x
    requires out <= Bridge.Flatten(blocks)
    ensures out <= Bridge.Flatten(emitted)
  {
    hide Bridge.Flatten;
    forall j, v | 0 <= j < |blocks| && v in blocks[j]
      ensures v == x
    {
      assert v in emitted[j];
    }
    FlattenAll(blocks, x);
    FlattenAll(emitted, x);
    FlattenLength(blocks, emitted);
    forall i | 0 <= i < |out|
      ensures out[i] == Bridge.Flatten(emitted)[i]
    {
      assert out[i] == Bridge.Flatten(blocks)[i];
      assert Bridge.Flatten(blocks)[i] in Bridge.Flatten(blocks) && Bridge.Flatten(emitted)[i] in Bridge.Flatten(emitted);
    }
  }

  /** All the ints up to one that is emitted are not negative. */
  lemma NothingNegativeBefore(ints: seq<int>, e: seq<int>, i: nat, q: nat)
    requires ints != [] && Follows(ints, e) && i < |e| && q <= i % |ints|
    ensures ints[q] >= 0
  {
    assert i % |ints| <= i;
    SmallMod(q, |ints|);
    assert e[q] == ints[q % |ints|];
  }

  /** Then a ward emits only one value. */
  lemma EmitsOneValue(ints: seq<int>, e: seq<int>, i: nat)
    requires Uniform(ints) && Follows(ints, e) && i < |e|
    ensures ints != [] && e[i] == ints[0]
  {
    assert e[i] >= 0 && ints != [] && e[i] == ints[i % |ints|];
    hide Follows;
    var m := i % |ints|;
    forall q | 0 <= q <= m
      ensures ints[q] >= 0
    {
      NothingNegativeBefore(ints, e, i, q);
    }
  }

  lemma WardsEmitOneValue(ints: seq<int>, s: State, x: int)
    requires Uniform(ints) && Inv(ints, s) && (ints != [] ==> x == ints[0])
    ensures forall j, v :: 0 <= j < |s.order| && v in Emitted(s)[j] ==> v == x
  {
    hide Uniform, Bridge.Inv, ForwardOk;
    forall j, v | 0 <= j < |s.order| && v in Emitted(s)[j]
      ensures v == x
    {
      var e := Emitted(s)[j];
      var i :| 0 <= i < |e| && e[i] == v;
      assert WardOk(ints, s.wards[s.order[j]]);
      hide BlocksOk, Emitted;
      EmitsOneValue(ints, e, i);
    }
  }

  lemma UniformIsAsPlain(ints: seq<int>, s: State)
    requires Uniform(ints) && Reaches(Steps(ints), Init(), s)
    ensures AsPlain(s)
  {
    RestartGrammar(ints, s);
    ReachableInv(ints, s);
    var x, blocks, emitted := if ints == [] then 0 else ints[0], s.main.blocks, Emitted(s);
    WardsEmitOneValue(ints, s, x);
    assert forall j :: 0 <= j < |s.order| ==> blocks[j] <= emitted[j];
    hide Uniform, Inv, Emitted, Bridge.Flatten;
    NothingLooksLost(blocks, emitted, s.main.out, x);
    Bridge.OutputsExactly(emitted, s.main.out);
  }

  // ---- a value lost in the middle ----

  /** Two wards, the first of which has got i of its ints through. */
  function Served(ints: seq<int>, i: nat): State
    requires i < |ints|
  {
    var first := Ward(Emitting(i), false, ints[..i]);
    State(false, [first, Ward(Publishing, false, [])], Receiving(0),
          Bridge.State(Bridge.Inner, [ints[..i]], ints[..i]), [0])
  }

  lemma {:induction false} ServedReached(ints: seq<int>, i: nat)
    requires i < |ints| && forall q :: 0 <= q < i ==> ints[q] >= 0
    ensures Reaches(Steps(ints), Init(), Served(ints, i))
  {
    var step := Steps(ints);
    if i == 0 {
      ReachesRefl(step, Init());
      var s := Do(step, Init(), Init(), StartWard);
      s := Do(step, Init(), s, StartWard);
      s := Do(step, Init(), s, Publish(0));
      assert s == Served(ints, 0);
    } else {
      ServedReached(ints, i - 1);
      SmallMod(i, |ints|);
      assert ints[..i - 1] + [ints[i - 1]] == ints[..i];
      var s := Do(step, Init(), Served(ints, i - 1), Emit(0));
      s := Do(step, Init(), s, Pass);
      s := Do(step, Init(), s, Output);
      assert s == Served(ints, i);
    }
  }

  /** The forwarder drops the value in its hand, the range ends, and the bridge happens to take the next ward's stream. */
  function Dropped(ints: seq<int>, m: nat): State
    requires m < |ints|
  {
    var first := Ward(Emitting((m + 1) % |ints|), false, ints[..m + 1]);
    State(true, [first, Ward(Emitting(0), false, [])], Receiving(1),
          Bridge.State(Bridge.Inner, [ints[..m], []], ints[..m]), [0, 1])
  }

  lemma DroppedReached(ints: seq<int>, m: nat)
    requires m < |ints| && forall i :: 0 <= i <= m ==> ints[i] >= 0
    ensures Reaches(Steps(ints), Init(), Dropped(ints, m))
  {
    var step := Steps(ints);
    ServedReached(ints, m);
    assert ints[..m] + [ints[m]] == ints[..m + 1];
    var s := Do(step, Init(), Served(ints, m), Emit(0));
    s := Do(step, Init(), s, CancelParent);
    s := Do(step, Init(), s, ForwardHalts);
    s := Do(step, Init(), s, RangeEnds);
    s := Do(step, Init(), s, Publish(1));
    assert s == Dropped(ints, m);
  }

  /** And the next value comes through. */
  lemma LostInTheMiddle(ints: seq<int>, m: nat) returns (s: State)
    requires m < |ints| && forall i :: 0 <= i <= m ==> ints[i] >= 0
    ensures Reaches(Steps(ints), Init(), s) && OrderOk(s.wards, s.order)
    ensures Emitted(s) == [ints[..m + 1], [ints[0]]] && s.main.out == ints[..m] + [ints[0]]
  {
    var step := Steps(ints);
    DroppedReached(ints, m);
    s := Do(step, Init(), Dropped(ints, m), Emit(1));
    s := Do(step, Init(), s, Pass);
    s := Do(step, Init(), s, Output);
    assert [] + [ints[0]] == [ints[0]];
    assert s.wards[0].emitted == ints[..m + 1] && s.wards[1].emitted == [ints[0]];
    assert |Emitted(s)| == 2 && Emitted(s)[0] == s.wards[0].emitted && Emitted(s)[1] == s.wards[1].emitted;
  }

  lemma NotUniformLoses(ints: seq<int>)
    requires !Uniform(ints)
    ensures exists s :: Reaches(Steps(ints), Init(), s) && !AsPlain(s)
  {
    var m :| 0 <= m < |ints| && (forall i :: 0 <= i <= m ==> ints[i] >= 0) && ints[m] != ints[0];
    var s := LostInTheMiddle(ints, m);
    var first, all := ints[..m + 1], Bridge.Flatten(Emitted(s));
    assert Emitted(s)[..1] == [first] && [first][..0] == [] && Bridge.Flatten([first]) == [] + first;
    assert all == Bridge.Flatten([first]) + [ints[0]];
    assert s.main.out[m] == ints[0] && all[m] == ints[m];
    Bridge.OutputsExactly(Emitted(s), s.main.out);
  }

  /**
    The two-hop bridge is, cancelled or not, a bridge over what the wards emitted, in every run, exactly when the
    wards have but one value to emit. Otherwise a cancellation can lose one before others that come through.
   */
  lemma RefinesExactly(ints: seq<int>)
    ensures (forall s :: Reaches(Steps(ints), Init(), s) ==> AsPlain(s)) <==> Uniform(ints)
  {
    if Uniform(ints) {
      forall s | Reaches(Steps(ints), Init(), s)
        ensures AsPlain(s)
      {
        UniformIsAsPlain(ints, s);
      }
    } else {
      NotUniformLoses(ints);
    }
  }

  // ---- a ward that does not see its cancellation ----

  predicate MustLeave(s: State, w: nat) { w < |s.wards| && s.wards[w].cancelled && !s.wards[w].pc.Exited? }

  predicate CanLeave(ints: seq<int>, s: State, w: nat)
    requires w < |s.wards|
  {
    WardStep(ints, s, w, Halt(w)).Some? || WardStep(ints, s, w, Fail(w)).Some?
  }

  /** With nothing to emit its loop never comes to another select, cancelled or not. */
  lemma SpinsForever(s: State, t: State, w: nat)
    requires w < |s.wards| && s.wards[w].pc.Emitting? && Reaches(Steps([]), s, t)
    ensures w < |t.wards| && t.wards[w].pc.Emitting?
  {
    var inv := (x: State) => w < |x.wards| && x.wards[w].pc.Emitting?;
    ReachesInductive(Steps([]), inv, s, t);
  }

  /** Cancelled wards can always leave exactly when there is something to emit. */
  lemma WardsLeaveExactly(ints: seq<int>)
    ensures (forall s, w: nat :: Reaches(Steps(ints), Init(), s) && MustLeave(s, w) ==> CanLeave(ints, s, w))
      <==> ints != []
  {
    if ints != [] {
      forall s, w: nat | Reaches(Steps(ints), Init(), s) && MustLeave(s, w)
        ensures CanLeave(ints, s, w)
      {
        ReachableInv(ints, s);
        assert WardOk(ints, s.wards[w]);
      }
    } else {
      var step := Steps(ints);
      ReachesRefl(step, Init());
      var s := Do(step, Init(), Init(), StartWard);
      s := Do(step, Init(), s, Publish(0));
      s := Do(step, Init(), s, CancelWard(0));
      assert !CanLeave(ints, s, 0);
    }
  }
}
