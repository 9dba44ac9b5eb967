/** The loops of a ward and of take, as the goroutines run them, given what each of their selects yields. */
module HealingLoops {
  import opened Healing

  // outcomes of a ward's selects: its context is done, its stream is taken by the bridge, the ticker fires,
  // somebody reads its heartbeat, the value on offer is received
  datatype Choice = CtxDone | Published | Tick | BeatRead | Received

  function Count(choices: seq<Choice>, c: Choice): nat {
    if choices == [] then 0
    else Count(choices[..|choices| - 1], c) + (if choices[|choices| - 1] == c then 1 else 0)
  }

  lemma CountNext(choices: seq<Choice>, k: nat, c: Choice)
    requires k < |choices|
    ensures Count(choices[..k + 1], c) == Count(choices[..k], c) + (if choices[k] == c then 1 else 0)
  {
    assert choices[..k + 1][..k] == choices[..k];
  }

  /** The heartbeat channel is full: it was, or the ticker has fired, and nobody has read it since. */
  predicate BeatFull(choices: seq<Choice>, start: nat, stop: nat, before: bool)
    requires start <= stop <= |choices|
  {
    if start == stop then before
    else match choices[stop - 1]
      case Tick => true
      case BeatRead => false
      case _ => BeatFull(choices, start, stop - 1, before)
  }

  lemma {:induction false} BeatConcat(choices: seq<Choice>, start: nat, mid: nat, stop: nat, before: bool)
    requires start <= mid <= stop <= |choices|
    ensures BeatFull(choices, mid, stop, BeatFull(choices, start, mid, before)) == BeatFull(choices, start, stop, before)
    decreases stop
  {
    if mid < stop { BeatConcat(choices, start, mid, stop - 1, before); }
  }

  /** How the offer of one value ends: received, given up for the context, or still going on. */
  datatype Offer = Done | GivenUp | Pending

  /** One value is offered on the stream, with a pulse at every tick, until it is received. */
  method OfferValue(choices: seq<Choice>, start: nat, beating: bool) returns (end: Offer, used: nat, beat: bool)
    requires start <= |choices|
    ensures start <= used <= |choices| && beat == BeatFull(choices, start, used, beating)
    ensures Count(choices[..used], Received) == Count(choices[..start], Received) + (if end.Done? then 1 else 0)
    ensures end.Done? ==> used > start
    ensures forall k :: start <= k < used && choices[k].CtxDone? ==> end.GivenUp? && k == used - 1
    ensures end.GivenUp? ==> used > start && choices[used - 1].CtxDone?
    ensures end.Pending? && used < |choices| ==> choices[used].Published? || (choices[used].BeatRead? && !beat)
  {
    used, beat := start, beating;
    while used < |choices|
      invariant start <= used <= |choices| && Count(choices[..used], Received) == Count(choices[..start], Received)
      invariant forall k :: start <= k < used ==> !choices[k].CtxDone?
      invariant beat == BeatFull(choices, start, used, beating)
    {
      CountNext(choices, used, Received);
      match choices[used] {
      case CtxDone => return GivenUp, used + 1, beat;
      case Received => return Done, used + 1, beat;
      case Published => return Pending, used, beat;
      case Tick => beat := true;       // dropped if the channel is full
      case BeatRead =>
        if !beat {
          return Pending, used, beat;
        }
        beat := false;
      }
      used := used + 1;
    }
    return Pending, used, beat;
  }

  /** What a ward has emitted, before it offers the pos-th of the ints. */
  ghost predicate Offering(ints: seq<int>, emitted: seq<int>, pos: nat) {
    Follows(ints, emitted) && pos == Position(ints, |emitted|) && pos < |ints|
  }

  /** On to the next of the ints, from the last back to the first. */
  lemma OfferingNext(ints: seq<int>, emitted: seq<int>, pos: nat)
    requires pos < |ints| && Offering(ints, emitted, pos) && ints[pos] >= 0
    ensures Offering(ints, emitted + [ints[pos]], if pos + 1 == |ints| then 0 else pos + 1)
  {
    var e, k := emitted + [ints[pos]], |ints|;
    NextMod(|emitted|, k);
    ModUnique(pos + 1, k, if pos + 1 == k then 1 else 0, if pos + 1 == k then 0 else pos + 1);
    forall i | 0 <= i < |e| ensures e[i] == ints[i % k] >= 0 {
      if i < |emitted| { assert e[i] == emitted[i]; }
    }
  }

  /** Whether it still offers that int, has left, or has failed at it: the ward is as its history says. */
  lemma OfferingWard(ints: seq<int>, emitted: seq<int>, pos: nat)
    requires Offering(ints, emitted, pos)
    ensures WardOk(ints, Ward(Emitting(pos), false, emitted)) && WardOk(ints, Ward(Exited, false, emitted))
    ensures ints != [] && ints[|emitted| % |ints|] == ints[pos]
  {
  }

  /**
    The goroutine of a ward. It emits one value for each receive, in the order
    of the ints and over and over, and it fails exactly at a negative one or
    leaves when the context is done. It stops short of that only where the next
    outcome is not on offer. With no ints it gets to no further select once its stream is taken.
   */
  method WardLoop(ints: seq<int>, choices: seq<Choice>) returns (ward: Ward, used: nat, failed: bool)
    ensures used <= |choices| && WardOk(ints, ward)
    ensures |ward.emitted| == Count(choices[..used], Received)
    ensures failed ==> ward.pc.Exited? && ints != [] && ints[|ward.emitted| % |ints|] < 0
    ensures ward.pc.Exited? && !failed ==> used > 0 && choices[used - 1].CtxDone?
    ensures ward.pc.Emitting? && ints != [] ==> ints[|ward.emitted| % |ints|] >= 0
    ensures ints == [] && choices != [] && choices[0].Published? ==> ward == Ward(Emitting(0), false, []) && used == 1
    ensures ward.pc.Publishing? ==> used == 0
    ensures forall k :: 0 <= k < used && choices[k].CtxDone? ==> ward.pc.Exited? && !failed && k == used - 1
    ensures used < |choices| && ward.pc.Publishing? ==> !choices[used].Published? && !choices[used].CtxDone?
    ensures used < |choices| && ward.pc.Emitting? && ints != [] ==>
      choices[used].Published? || (used > 0 && choices[used].BeatRead? && !BeatFull(choices, 1, used, false))
  {
    used, failed := 0, false;
    if choices == [] || (!choices[0].Published? && !choices[0].CtxDone?) {
      return Ward(Publishing, false, []), 0, false;
    }
    CountNext(choices, 0, Received);
    used := 1;
    if choices[0].CtxDone? {
      return Ward(Exited, false, []), 1, false;
    }
    if ints == [] {
      return Ward(Emitting(0), false, []), 1, false;    // the loop over the ints spins
    }
    var emitted, pos, beat := [], 0, false;
    assert Offering(ints, [], 0);
    hide Follows, Offering, WardOk;
    while true
      invariant 0 < used <= |choices| && pos < |ints| && Offering(ints, emitted, pos)
      invariant |emitted| == Count(choices[..used], Received)
      invariant forall k :: 0 <= k < used ==> !choices[k].CtxDone?
      invariant beat == BeatFull(choices, 1, used, false)
      decreases |choices| - used
    {
      OfferingWard(ints, emitted, pos);
      var v := ints[pos];
      if v < 0 {
        return Ward(Exited, false, emitted), used, true;
      }
      var end;
      ghost var before := used;
      end, used, beat := OfferValue(choices, used, beat);
      BeatConcat(choices, 1, before, used, false);
      match end {
      case GivenUp => return Ward(Exited, false, emitted), used, false;
      case Pending => return Ward(Emitting(pos), false, emitted), used, false;
      case Done =>
        OfferingNext(ints, emitted, pos);
        emitted, pos := emitted + [v], if pos + 1 == |ints| then 0 else pos + 1;
      }
    }
  }

  // ---- take ----

  // outcomes of take's selects: the context is done, a value arrives, the input is closed, the output accepts
  datatype TakeChoice = Halt | Value(v: int) | Closed | Accepted

  /** The values that arrive, in order. */
  function Arrived(choices: seq<TakeChoice>): seq<int> {
    if choices == [] then []
    else Arrived(choices[..|choices| - 1])
         + (if choices[|choices| - 1].Value? then [choices[|choices| - 1].v] else [])
  }

  lemma ArrivedNext(choices: seq<TakeChoice>, k: nat)
    requires k < |choices|
    ensures Arrived(choices[..k + 1]) == Arrived(choices[..k]) + (if choices[k].Value? then [choices[k].v] else [])
  {
    assert choices[..k + 1][..k] == choices[..k];
  }

  /**
    take hands on what arrives, in order, and closes after n values, at the end of the input, or at the
    cancellation. It stops short of that only where the next outcome is not on offer.
   */
  method Take(n: nat, choices: seq<TakeChoice>) returns (out: seq<int>, closed: bool, used: nat)
    ensures used <= |choices| && |out| <= n
    ensures var got := Arrived(choices[..used]); out <= got && |got| <= |out| + 1 && |got| <= n
    ensures closed && |out| < n ==> used > 0 && (choices[used - 1].Closed? || choices[used - 1].Halt?)
    ensures closed && |out| < n && choices[used - 1].Closed? ==> out == Arrived(choices[..used])
    ensures |out| == n ==> closed
    ensures forall k :: 0 <= k < used && (choices[k].Closed? || choices[k].Halt?) ==> closed && k == used - 1
    ensures used < |choices| && !closed ==>
      if |Arrived(choices[..used])| == |out| then choices[used].Accepted? else choices[used].Value? || choices[used].Closed?
  {
    out, closed, used := [], false, 0;
    var i := 0;
    while i < n
      invariant used <= |choices| && i == |out| <= n && !closed
      invariant out == Arrived(choices[..used])
      invariant forall k :: 0 <= k < used ==> !choices[k].Closed? && !choices[k].Halt?
      decreases n - i
    {
      if used == |choices| || choices[used].Accepted? {
        return;
      }
      ArrivedNext(choices, used);
      used := used + 1;
      if !choices[used - 1].Value? {
        return out, true, used;
      }
      var v := choices[used - 1].v;
      if used == |choices| || (!choices[used].Halt? && !choices[used].Accepted?) {
        return;
      }
      ArrivedNext(choices, used);
      used := used + 1;
      if choices[used - 1].Halt? {
        return out, true, used;
      }
      out, i := out + [v], i + 1;
    }
    closed := true;
  }
}
