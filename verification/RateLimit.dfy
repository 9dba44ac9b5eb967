/**
  The token-bucket limiter. Times are integer nanoseconds, tokens are reals:
  only the rounding of a wait to whole nanoseconds is modelled.
 */
module RateLimit {
  import opened Options

  const NANOS: real := 1000000000.0

  // last: the latest refill, None for the zero time
  datatype Bucket = Bucket(rate: real, burst: int, tokens: real, last: Option<int>) {
    predicate Usable() { rate > 0.0 && last.Some? && tokens <= burst as real }
  }

  function Min(a: real, b: real): real { if a <= b then a else b }

  function New(r: real, b: int, now: int): Bucket {
    if r <= 0.0 then Bucket(0.0, 0, 0.0, Some(now)) else Bucket(r, b, b as real, Some(now))
  }

  /** Tokens that flow in between two readings of the clock. */
  function Refill(rate: real, from: int, to: int): real { rate * ((to - from) as real / NANOS) }

  function Advance(l: Bucket, now: int): Bucket {
    if l.last.None? then l.(last := Some(now))
    else if now - l.last.value <= 0 then l
    else l.(tokens := Min(l.tokens + Refill(l.rate, l.last.value, now), l.burst as real), last := Some(now))
  }

  /** One pass through the critical section of WaitN: refill, and take n tokens if they are there. */
  datatype Attempt = Attempt(now: int, n: nat)

  function Granted(l: Bucket, a: Attempt): bool { Advance(l, a.now).tokens >= a.n as real }

  function Try(l: Bucket, a: Attempt): Bucket {
    var m := Advance(l, a.now);
    if m.tokens >= a.n as real then m.(tokens := m.tokens - a.n as real) else m
  }

  function TryAll(l: Bucket, run: seq<Attempt>): Bucket
    decreases |run|
  {
    if run == [] then l else TryAll(Try(l, run[0]), run[1..])
  }

  // ---- refills ----

  lemma RefillAdds(rate: real, a: int, b: int, c: int)
    ensures Refill(rate, a, b) + Refill(rate, b, c) == Refill(rate, a, c)
  {
    var x, y := (b - a) as real / NANOS, (c - b) as real / NANOS;
    assert (c - a) as real / NANOS == x + y;
    assert rate * (x + y) == rate * x + rate * y;
  }

  lemma RefillSign(rate: real, a: int, b: int)
    requires rate > 0.0 && a <= b
    ensures Refill(rate, a, b) >= 0.0 && (a < b ==> Refill(rate, a, b) > 0.0)
  {
  }

  /** A refill in between, with nothing taken, changes nothing. */
  lemma RefillsMerge(l: Bucket, a: int, b: int)
    requires l.Usable() && a <= b
    ensures Advance(Advance(l, a), b) == Advance(l, b)
  {
    var t0 := l.last.value;
    if t0 < a < b {
      RefillAdds(l.rate, t0, a, b);
      RefillSign(l.rate, a, b);
      hide Refill;
    }
  }

  lemma UsableKept(l: Bucket, a: Attempt)
    requires l.Usable()
    ensures Try(l, a).Usable() && Advance(l, a.now).Usable()
    ensures (Try(l, a).rate, Try(l, a).burst) == (l.rate, l.burst)
  {
  }

  // ---- the sliding window ----

  /** The grants of a run, oldest first, each at the time the bucket reckons with: the latest clock reading so far. */
  datatype Grant = Grant(at: int, n: nat)

  function Grants(l: Bucket, run: seq<Attempt>): seq<Grant>
    requires l.last.Some?
    decreases |run|
  {
    if run == [] then []
    else (if Granted(l, run[0]) then [Grant(Advance(l, run[0].now).last.value, run[0].n)] else [])
         + Grants(Try(l, run[0]), run[1..])
  }

  function Total(g: seq<Grant>): nat {
    if g == [] then 0 else g[0].n + Total(g[1..])
  }

  /** No window from an earlier grant up to time t, with n more at t, exceeds the burst plus what flowed in. */
  predicate Conforms(rate: real, burst: int, g: seq<Grant>, t: int, n: nat) {
    && n as real <= burst as real
    && forall i :: 0 <= i < |g| ==> (Total(g[i..]) + n) as real <= burst as real + Refill(rate, g[i].at, t)
  }

  /** The most that may be granted at time t: the tightest of the windows. */
  function Room(rate: real, burst: int, g: seq<Grant>, t: int): real {
    if g == [] then burst as real
    else Min(Room(rate, burst, g[1..], t), burst as real + Refill(rate, g[0].at, t) - Total(g) as real)
  }

  lemma {:induction false} RoomMeansConforms(rate: real, burst: int, g: seq<Grant>, t: int, n: nat)
    ensures n as real <= Room(rate, burst, g, t) <==> Conforms(rate, burst, g, t, n)
    decreases |g|
  {
    hide Refill, Total;
    if g != [] {
      RoomMeansConforms(rate, burst, g[1..], t, n);
      assert g[0..] == g;
      assert forall i :: 0 <= i < |g| - 1 ==> g[1..][i] == g[i + 1] && g[1..][i..] == g[i + 1..];
      assert forall i :: 1 <= i < |g| ==> g[i] == g[1..][i - 1] && g[i..] == g[1..][i - 1..];
    }
  }

  lemma {:induction false} TotalAppend(g: seq<Grant>, x: Grant)
    ensures Total(g + [x]) == Total(g) + x.n
    decreases |g|
  {
    if g == [] {
      assert g + [x] == [x];
    } else {
      assert (g + [x])[1..] == g[1..] + [x];
      TotalAppend(g[1..], x);
    }
  }

  /** Time passes: every window gains what flows in, up to the burst. */
  lemma {:induction false} RoomLater(rate: real, burst: int, g: seq<Grant>, t: int, u: int)
    requires rate > 0.0 && t <= u
    ensures Room(rate, burst, g, u) == Min(burst as real, Room(rate, burst, g, t) + Refill(rate, t, u))
    decreases |g|
  {
    RefillSign(rate, t, u);
    if g != [] {
      RoomLater(rate, burst, g[1..], t, u);
      RefillAdds(rate, g[0].at, t, u);
      hide Refill, Total;
    }
  }

  /** A grant is counted in every window that is open. */
  lemma {:induction false} RoomAfterGrant(rate: real, burst: int, g: seq<Grant>, x: Grant)
    ensures Room(rate, burst, g + [x], x.at) == Room(rate, burst, g, x.at) - x.n as real
    decreases |g|
  {
    if g == [] {
      assert g + [x] == [x] && [x][1..] == [];
      assert Total([x]) == x.n;
      assert Refill(rate, x.at, x.at) == 0.0;
    } else {
      assert (g + [x])[1..] == g[1..] + [x] && (g + [x])[0] == g[0];
      RoomAfterGrant(rate, burst, g[1..], x);
      TotalAppend(g, x);
      hide Refill, Total;
    }
  }

  /** The tokens of a bucket are exactly the room its grants leave. */
  ghost predicate Exact(l: Bucket, g: seq<Grant>) {
    l.Usable() && l.tokens == Room(l.rate, l.burst, g, l.last.value)
  }

  lemma AdvanceExact(l: Bucket, g: seq<Grant>, now: int)
    requires Exact(l, g)
    ensures Exact(Advance(l, now), g)
  {
    if l.last.value < now { RoomLater(l.rate, l.burst, g, l.last.value, now); }
    hide Room, Refill;
  }

  lemma TryExact(l: Bucket, g: seq<Grant>, a: Attempt)
    requires Exact(l, g)
    ensures Exact(Try(l, a), if Granted(l, a) then g + [Grant(Advance(l, a.now).last.value, a.n)] else g)
  {
    AdvanceExact(l, g, a.now);
    RoomAfterGrant(l.rate, l.burst, g, Grant(Advance(l, a.now).last.value, a.n));
    hide Room, Refill;
  }

  lemma {:induction false} RunExact(l: Bucket, g: seq<Grant>, run: seq<Attempt>)
    requires Exact(l, g)
    ensures Exact(TryAll(l, run), g + Grants(l, run))
    ensures (TryAll(l, run).rate, TryAll(l, run).burst) == (l.rate, l.burst)
    decreases |run|
  {
    if run == [] {
      assert g + Grants(l, run) == g;
    } else {
      var here := if Granted(l, run[0]) then [Grant(Advance(l, run[0].now).last.value, run[0].n)] else [];
      TryExact(l, g, run[0]);
      UsableKept(l, run[0]);
      assert g + [] == g;
      RunExact(Try(l, run[0]), g + here, run[1..]);
      assert g + Grants(l, run) == g + here + Grants(Try(l, run[0]), run[1..]);
    }
  }

  /**
    After any run of attempts by any callers with any clock, n tokens are
    granted exactly when no window of the past would be exceeded.
   */
  lemma GrantedExactly(r: real, b: int, start: int, run: seq<Attempt>, next: Attempt)
    requires r > 0.0
    ensures var l := TryAll(New(r, b, start), run);
      l.last.Some?
      && (Granted(l, next) <==>
          Conforms(r, b, Grants(New(r, b, start), run), Advance(l, next.now).last.value, next.n))
  {
    var l0 := New(r, b, start);
    var g := Grants(l0, run);
    assert Exact(l0, []);
    RunExact(l0, [], run);
    assert [] + g == g;
    var l := TryAll(l0, run);
    AdvanceExact(l, g, next.now);
    RoomMeansConforms(r, b, g, Advance(l, next.now).last.value, next.n);
    hide Room, Refill, Conforms, Total;
  }

  // ---- WaitN ----

  // others: attempts of other callers since the last round; now: the clock as read under mu;
  // ctxDone: the caller's context ends the sleep of this round
  datatype Round = Round(others: seq<Attempt>, now: int, ctxDone: bool)

  datatype Outcome =
    | NothingAsked            // n <= 0: nil at once
    | ExceedsBurst
    | RateIsZero
    | Allowed(now: int)
    | DeadlineExceeded
    | ContextDone
    | StillWaiting            // the given rounds do not settle the call

  /** The deficit in nanoseconds of refill, and the wait: rounded to the nearest nanosecond. */
  function Deficit(l: Bucket, n: int): real
    requires l.rate > 0.0
  {
    (n as real - l.tokens) / l.rate * NANOS
  }

  function Wait(l: Bucket, n: int): int
    requires l.rate > 0.0
  {
    (Deficit(l, n) + 0.5).Floor
  }

  predicate TooLate(deadline: Option<int>, now: int, wait: int) {
    deadline.Some? && now + wait > deadline.value
  }

  lemma {:induction false} RunRate(l: Bucket, run: seq<Attempt>)
    ensures TryAll(l, run).rate == l.rate
    decreases |run|
  {
    if run != [] { RunRate(Try(l, run[0]), run[1..]); }
  }

  function WaitRun(l: Bucket, n: nat, deadline: Option<int>, rounds: seq<Round>): (Bucket, Outcome)
    requires l.rate > 0.0
    decreases |rounds|
  {
    if rounds == [] then (l, StillWaiting)
    else
      var now := rounds[0].now;
      RunRate(l, rounds[0].others);
      var m := Advance(TryAll(l, rounds[0].others), now);
      if m.tokens >= n as real then (m.(tokens := m.tokens - n as real), Allowed(now))
      else if TooLate(deadline, now, Wait(m, n)) then (m, DeadlineExceeded)
      else if rounds[0].ctxDone then (m, ContextDone)
      else WaitRun(m, n, deadline, rounds[1..])
  }

  function WaitCall(l: Bucket, n: int, deadline: Option<int>, rounds: seq<Round>): (Bucket, Outcome) {
    if n <= 0 then (l, NothingAsked)
    else if n > l.burst then (l, ExceedsBurst)
    else if l.rate <= 0.0 then (l, RateIsZero)
    else WaitRun(l, n, deadline, rounds)
  }

  /** The limiter as the program keeps it: two fields updated under mu. */
  class Limiter {
    const rate: real
    const burst: int
    var tokens: real
    var last: Option<int>

    ghost function View(): Bucket
      reads this
    {
      Bucket(rate, burst, tokens, last)
    }

    constructor (r: real, b: int, now: int)
      ensures View() == New(r, b, now)
    {
      var toks := b as real;
      var r', b' := r, b;
      if r <= 0.0 {
        r', b', toks := 0.0, 0, 0.0;
      }
      rate, burst, tokens, last := r', b', toks, Some(now);
    }

    method AdvanceTo(now: int)
      modifies this
      ensures View() == Advance(old(View()), now)
    {
      if last.None? {
        last := Some(now);
        return;
      }
      var elapsed := now - last.value;
      if elapsed <= 0 {
        return;
      }
      tokens := tokens + rate * (elapsed as real / NANOS);
      if tokens > burst as real {
        tokens := burst as real;
      }
      last := Some(now);
    }

    /** What other callers do to the bucket while this one sleeps. */
    method Interfere(others: seq<Attempt>)
      modifies this
      ensures View() == TryAll(old(View()), others)
    {
      var k := 0;
      while k < |others|
        invariant 0 <= k <= |others|
        invariant TryAll(View(), others[k..]) == TryAll(old(View()), others)
      {
        AdvanceTo(others[k].now);
        if tokens >= others[k].n as real {
          tokens := tokens - others[k].n as real;
        }
        k := k + 1;
      }
    }

    method WaitN(n: int, deadline: Option<int>, rounds: seq<Round>) returns (outcome: Outcome)
      modifies this
      ensures (View(), outcome) == WaitCall(old(View()), n, deadline, rounds)
    {
      if n <= 0 {
        return NothingAsked;
      }
      if n > burst {
        return ExceedsBurst;
      }
      if rate <= 0.0 {
        return RateIsZero;
      }
      var k := 0;
      while k < |rounds|
        invariant 0 <= k <= |rounds|
        invariant WaitRun(View(), n, deadline, rounds[k..]) == WaitRun(old(View()), n, deadline, rounds)
      {
        var now := rounds[k].now;
        Interfere(rounds[k].others);
        AdvanceTo(now);
        if tokens >= n as real {
          tokens := tokens - n as real;
          return Allowed(now);
        }
        var need := n as real - tokens;
        var wait := (need / rate * NANOS + 0.5).Floor;
        if deadline.Some? && now + wait > deadline.value {
          return DeadlineExceeded;
        }
        if rounds[k].ctxDone {
          return ContextDone;
        }
        k := k + 1;
      }
      return StillWaiting;
    }
  }

  // ---- the wait is right ----

  /** Other callers only ever take tokens away. */
  lemma {:induction false} OthersOnlyTake(l: Bucket, run: seq<Attempt>, t: int)
    requires l.Usable() && forall k :: 0 <= k < |run| ==> run[k].now <= t
    ensures Advance(TryAll(l, run), t).tokens <= Advance(l, t).tokens
    decreases |run|
  {
    if run != [] {
      UsableKept(l, run[0]);
      OthersOnlyTake(Try(l, run[0]), run[1..], t);
      RefillsMerge(l, run[0].now, t);
      hide Refill;
    }
  }

  /** What flows in during x nanoseconds, against a deficit. */
  lemma RefillDeficit(l: Bucket, n: int, from: int, to: int)
    requires l.rate > 0.0
    ensures n as real - (l.tokens + Refill(l.rate, from, to)) == l.rate / NANOS * (Deficit(l, n) - (to - from) as real)
  {
    var need := n as real - l.tokens;
    var d := (to - from) as real;
    assert l.rate / NANOS * (need / l.rate * NANOS) == need;
    assert l.rate / NANOS * (need / l.rate * NANOS - d) == need - l.rate / NANOS * d;
    assert l.rate * (d / NANOS) == l.rate / NANOS * d;
  }

  /** The tokens still missing for n at time now, if nobody else takes any. */
  function Missing(l: Bucket, n: int, now: int): real
    requires l.Usable()
  {
    l.rate / NANOS * (Deficit(l, n) - (now - l.last.value) as real)
  }

  /** What flows in during half a nanosecond. */
  function HalfNano(l: Bucket): real { l.rate / NANOS * 0.5 }

  /** A product with a positive number has the sign of the other. */
  lemma Sign(p: real, y: real, q: real)
    requires p > 0.0 && q == p * y
    ensures q > 0.0 <==> y > 0.0
    ensures q < 0.0 <==> y < 0.0
  {
    if y > 0.0 {
      assert q > 0.0;
    } else if y < 0.0 {
      assert p * -y > 0.0;
    }
  }

  lemma ProductSize(p: real, late: real, x: real, h: real)
    requires p > 0.0 && x == p * late && h == p * 0.5
    ensures x > 0.0 <==> late > 0.0
    ensures x < h <==> late < 0.5
    ensures h > 0.0
  {
    Sign(p, late, x);
    Sign(p, late - 0.5, x - h);
  }

  lemma MissingSize(l: Bucket, n: int, now: int)
    requires l.Usable()
    ensures var late := Deficit(l, n) - (now - l.last.value) as real;
      && (Missing(l, n, now) > 0.0 <==> late > 0.0)
      && (Missing(l, n, now) < HalfNano(l) <==> late < 0.5)
      && HalfNano(l) > 0.0
  {
    var p, late := l.rate / NANOS, Deficit(l, n) - (now - l.last.value) as real;
    ProductSize(p, late, Missing(l, n, now), HalfNano(l));
  }

  lemma Shortfall(l: Bucket, n: nat, now: int)
    requires l.Usable() && now >= l.last.value && n as real <= l.burst as real
    ensures if Missing(l, n, now) <= 0.0 then Advance(l, now).tokens >= n as real
            else n as real - Advance(l, now).tokens == Missing(l, n, now)
  {
    RefillDeficit(l, n, l.last.value, now);
    if now == l.last.value { assert Refill(l.rate, now, now) == 0.0; }
    hide Deficit, Refill;
  }

  lemma DeficitPositive(l: Bucket, n: nat)
    requires l.rate > 0.0 && l.tokens < n as real
    ensures Deficit(l, n) > 0.0
  {
  }

  /** Failing fast is never wrong: whatever others do, the tokens would not be there at the deadline. */
  lemma FailFastIsSound(l: Bucket, n: nat, now: int, deadline: int, others: seq<Attempt>)
    requires l.Usable() && n as real <= l.burst as real
    requires var m := Advance(l, now); m.tokens < n as real && now + Wait(m, n) > deadline
    requires forall k :: 0 <= k < |others| ==> others[k].now <= deadline
    ensures Advance(TryAll(Advance(l, now), others), deadline).tokens < n as real
  {
    hide Deficit, Refill, Missing, HalfNano;
    var m := Advance(l, now);
    assert m.last.value >= now;
    UsableKept(l, Attempt(now, n));
    OthersOnlyTake(m, others, deadline);
    if m.last.value <= deadline {
      Shortfall(m, n, deadline);
      MissingSize(m, n, deadline);
    }
  }

  /** It happens exactly when, refilled from now to the deadline, half a nanosecond of refill or more is missing. */
  lemma TooLateExactly(l: Bucket, n: int, now: int, deadline: int)
    requires l.rate > 0.0
    ensures TooLate(Some(deadline), now, Wait(l, n))
       <==> n as real - (l.tokens + Refill(l.rate, now, deadline)) >= HalfNano(l)
  {
    var late := Deficit(l, n) - (deadline - now) as real;
    RefillDeficit(l, n, now, deadline);
    ProductSize(l.rate / NANOS, late, n as real - (l.tokens + Refill(l.rate, now, deadline)), HalfNano(l));
    hide Deficit, Refill, HalfNano;
  }

  /** Sleeping the rounded wait leaves less than half a nanosecond of refill missing. */
  lemma WaitIsNearlyEnough(l: Bucket, n: nat, now: int)
    requires l.Usable() && n as real <= l.burst as real && l.tokens < n as real
    requires now >= l.last.value + Wait(l, n)
    ensures n as real - Advance(l, now).tokens < HalfNano(l)
  {
    hide Deficit, Refill, Advance, Missing, HalfNano;
    DeficitPositive(l, n);
    Shortfall(l, n, now);
    MissingSize(l, n, now);
  }

  /** With less than half a nanosecond of refill missing the wait is zero, and one more nanosecond is enough. */
  lemma OneMoreNanosecond(l: Bucket, n: nat, now: int)
    requires l.Usable() && n as real <= l.burst as real && l.tokens < n as real
    requires n as real - l.tokens < HalfNano(l)
    ensures Wait(l, n) == 0
    ensures now >= l.last.value + 1 ==> Advance(l, now).tokens >= n as real
  {
    hide Deficit, Refill, Missing, HalfNano;
    DeficitPositive(l, n);
    Shortfall(l, n, l.last.value);
    MissingSize(l, n, l.last.value);
    if now >= l.last.value + 1 {
      Shortfall(l, n, now);
      MissingSize(l, n, now);
    }
  }

  /** The rounds of a caller that nobody competes with, whose timer fires no earlier than asked. */
  predicate Uncontended(l: Bucket, n: nat, rounds: seq<Round>)
    requires l.rate > 0.0
  {
    && |rounds| >= 3
    && (forall k :: 0 <= k < |rounds| ==> rounds[k].others == [] && !rounds[k].ctxDone)
    && l.last.Some? && l.last.value <= rounds[0].now
    && rounds[1].now >= rounds[0].now + Wait(Advance(l, rounds[0].now), n)
    && rounds[2].now > rounds[1].now
  }

  lemma RunOfThreeRounds(l: Bucket, n: nat, rounds: seq<Round>)
    requires l.Usable() && n as real <= l.burst as real && Uncontended(l, n, rounds)
    ensures WaitRun(l, n, None, rounds).1.Allowed?
  {
    var m1 := Advance(l, rounds[0].now);
    UsableKept(l, Attempt(rounds[0].now, n));
    if m1.tokens < n as real {
      WaitIsNearlyEnough(m1, n, rounds[1].now);
      DeficitPositive(m1, n);
      var m2 := Advance(m1, rounds[1].now);
      UsableKept(m1, Attempt(rounds[1].now, n));
      assert WaitRun(l, n, None, rounds) == WaitRun(m1, n, None, rounds[1..]);
      if m2.tokens < n as real {
        OneMoreNanosecond(m2, n, rounds[2].now);
        hide Deficit, Refill;
        assert WaitRun(m1, n, None, rounds[1..]) == WaitRun(m2, n, None, rounds[1..][1..]);
        assert rounds[1..][1..][0] == rounds[2];
      }
    }
  }

  /** Then the call is allowed within three rounds. */
  lemma ThreeRoundsAreEnough(l: Bucket, n: nat, rounds: seq<Round>)
    requires l.Usable() && 0 < n <= l.burst && Uncontended(l, n, rounds)
    ensures WaitCall(l, n, None, rounds).1.Allowed?
  {
    RunOfThreeRounds(l, n, rounds);
  }

  lemma {:induction false} UsableRun(l: Bucket, run: seq<Attempt>)
    requires l.Usable()
    ensures TryAll(l, run).Usable() && (TryAll(l, run).rate, TryAll(l, run).burst) == (l.rate, l.burst)
    decreases |run|
  {
    if run != [] {
      UsableKept(l, run[0]);
      UsableRun(Try(l, run[0]), run[1..]);
    }
  }

  predicate ByThen(others: seq<Attempt>, deadline: int) {
    forall k :: 0 <= k < |others| ==> others[k].now <= deadline
  }

  /** Whatever others take until the deadline, n tokens are not there when it comes. */
  ghost predicate NeverInTime(l: Bucket, n: nat, deadline: int) {
    forall others: seq<Attempt> | ByThen(others, deadline) :: Advance(TryAll(l, others), deadline).tokens < n as real
  }

  lemma TooLateForAll(l: Bucket, n: nat, now: int, deadline: int)
    requires l.Usable() && n as real <= l.burst as real
    requires var m := Advance(l, now); m.tokens < n as real && now + Wait(m, n) > deadline
    ensures NeverInTime(Advance(l, now), n, deadline)
  {
    forall others: seq<Attempt> | ByThen(others, deadline)
      ensures Advance(TryAll(Advance(l, now), others), deadline).tokens < n as real
    {
      FailFastIsSound(l, n, now, deadline, others);
    }
  }

  lemma {:induction false} RunFailsSoundly(l: Bucket, n: nat, deadline: int, rounds: seq<Round>)
    requires l.Usable() && n as real <= l.burst as real
    ensures WaitRun(l, n, Some(deadline), rounds).1 == DeadlineExceeded ==>
      NeverInTime(WaitRun(l, n, Some(deadline), rounds).0, n, deadline)
    decreases |rounds|
  {
    if rounds != [] {
      hide Wait, Refill, Advance, NeverInTime;
      var before := TryAll(l, rounds[0].others);
      UsableRun(l, rounds[0].others);
      UsableKept(before, Attempt(rounds[0].now, n));
      var m := Advance(before, rounds[0].now);
      if m.tokens < n as real {
        if TooLate(Some(deadline), rounds[0].now, Wait(m, n)) {
          TooLateForAll(before, n, rounds[0].now, deadline);
        } else if !rounds[0].ctxDone {
          RunFailsSoundly(m, n, deadline, rounds[1..]);
        }
      }
    }
  }

  /** Every DeadlineExceeded is right: whatever others take from then on, the tokens are not there at the deadline. */
  lemma DeadlineExceededIsSound(l: Bucket, n: int, deadline: int, rounds: seq<Round>)
    requires l.Usable() && WaitCall(l, n, Some(deadline), rounds).1 == DeadlineExceeded
    ensures 0 < n <= l.burst && NeverInTime(WaitCall(l, n, Some(deadline), rounds).0, n, deadline)
  {
    RunFailsSoundly(l, n, deadline, rounds);
  }

  /**
    A limiter of zero rate allows nothing, ever; its burst is zero too, so it is the burst that is
    reported as exceeded.
   */
  lemma {:induction false} ZeroRateAllowsNothing(l: Bucket, run: seq<Attempt>, n: int,
      deadline: Option<int>, rounds: seq<Round>)
    requires l.rate == 0.0 && l.burst == 0
    ensures WaitCall(TryAll(l, run), n, deadline, rounds).1 == if n <= 0 then NothingAsked else ExceedsBurst
    decreases |run|
  {
    if run != [] {
      ZeroRateAllowsNothing(Try(l, run[0]), run[1..], n, deadline, rounds);
    }
  }

  // ---- a call of WaitN is a run of attempts ----

  /** What the given rounds do to the bucket: the attempts of the others, and one of this caller in each round. */
  function AttemptsOf(n: nat, rounds: seq<Round>): seq<Attempt> {
    if rounds == [] then [] else rounds[0].others + [Attempt(rounds[0].now, n)] + AttemptsOf(n, rounds[1..])
  }

  lemma {:induction false} TryAllConcat(l: Bucket, a: seq<Attempt>, b: seq<Attempt>)
    ensures TryAll(l, a + b) == TryAll(TryAll(l, a), b)
    decreases |a|
  {
    if a == [] {
      assert a + b == b;
    } else {
      assert (a + b)[0] == a[0] && (a + b)[1..] == a[1..] + b;
      TryAllConcat(Try(l, a[0]), a[1..], b);
    }
  }

  /** The bucket that round j finds, after the attempts of the rounds before. */
  function Before(l: Bucket, n: nat, rounds: seq<Round>, j: nat): Bucket
    requires j <= |rounds|
  {
    TryAll(l, AttemptsOf(n, rounds[..j]))
  }

  /**
    How a round ends: with the tokens if they are there; otherwise at once if after a refill from now to the
    deadline half a nanosecond of refill or more would be missing, else with the caller's context or not at all.
   */
  function Verdict(l: Bucket, n: nat, deadline: Option<int>, r: Round): Outcome
    requires l.rate > 0.0
  {
    var m := Advance(TryAll(l, r.others), r.now);
    if Granted(TryAll(l, r.others), Attempt(r.now, n)) then Allowed(r.now)
    else if deadline.Some? && n as real - (m.tokens + Refill(l.rate, r.now, deadline.value)) >= HalfNano(l) then
      DeadlineExceeded
    else if r.ctxDone then ContextDone
    else StillWaiting
  }

  lemma OneMore(l: Bucket, others: seq<Attempt>, a: Attempt)
    ensures TryAll(l, others + [a]) == Try(TryAll(l, others), a)
    ensures l.rate > 0.0 ==> Try(TryAll(l, others), a).rate > 0.0
  {
    TryAllConcat(l, others, [a]);
    RunRate(l, others);
    var b := TryAll(l, others);
    assert TryAll(b, [a]) == TryAll(Try(b, a), []);
  }

  lemma RateBefore(l: Bucket, n: nat, rounds: seq<Round>, j: nat)
    requires j <= |rounds|
    ensures Before(l, n, rounds, j).rate == l.rate
  {
    RunRate(l, AttemptsOf(n, rounds[..j]));
  }

  /** A later round finds what it finds when the first round has been made. */
  lemma BeforeNext(l: Bucket, m: Bucket, n: nat, rounds: seq<Round>, j: nat)
    requires 0 < j <= |rounds| && m == TryAll(l, rounds[0].others + [Attempt(rounds[0].now, n)])
    ensures Before(l, n, rounds, j) == Before(m, n, rounds[1..], j - 1)
  {
    assert rounds[..j][1..] == rounds[1..][..j - 1] && rounds[..j][0] == rounds[0];
    TryAllConcat(l, rounds[0].others + [Attempt(rounds[0].now, n)], AttemptsOf(n, rounds[1..][..j - 1]));
  }

  /** One round of the loop is settled by its verdict. */
  lemma OneRound(l: Bucket, n: nat, deadline: Option<int>, rounds: seq<Round>)
    requires l.rate > 0.0 && rounds != []
    ensures var m := TryAll(l, rounds[0].others + [Attempt(rounds[0].now, n)]);
      && m.rate == l.rate
      && WaitRun(l, n, deadline, rounds) ==
           match Verdict(l, n, deadline, rounds[0])
           case StillWaiting => WaitRun(m, n, deadline, rounds[1..])
           case o => (m, o)
  {
    var r := rounds[0];
    RunRate(l, r.others);
    OneMore(l, r.others, Attempt(r.now, n));
    var m := Advance(TryAll(l, r.others), r.now);
    if deadline.Some? { TooLateExactly(m, n, r.now, deadline.value); }
    assert HalfNano(m) == HalfNano(l);
    hide Wait, Refill, HalfNano;
  }

  /**
    A call is settled in the first round with a verdict, and has made one attempt
    for n tokens in each round up to it, among those of the others. So it returns nil
    exactly when its latest attempt is granted, and every nil obeys the window
    rule of GrantedExactly among all the grants of all callers.
   */
  lemma {:induction false} RunIsAttempts(l: Bucket, n: nat, deadline: Option<int>, rounds: seq<Round>) returns (k: nat)
    requires l.rate > 0.0
    ensures k <= |rounds| && forall j :: 0 <= j <= |rounds| ==> Before(l, n, rounds, j).rate == l.rate
    ensures WaitRun(l, n, deadline, rounds).0 == Before(l, n, rounds, k)
    ensures forall j :: 0 <= j < k - 1 ==> Verdict(Before(l, n, rounds, j), n, deadline, rounds[j]) == StillWaiting
    ensures WaitRun(l, n, deadline, rounds).1
         == if k == 0 then StillWaiting else Verdict(Before(l, n, rounds, k - 1), n, deadline, rounds[k - 1])
    ensures WaitRun(l, n, deadline, rounds).1.StillWaiting? ==> k == |rounds|
    decreases |rounds|
  {
    forall j | 0 <= j <= |rounds| ensures Before(l, n, rounds, j).rate == l.rate { RateBefore(l, n, rounds, j); }
    k := 0;
    if rounds != [] {
      OneRound(l, n, deadline, rounds);
      var m := TryAll(l, rounds[0].others + [Attempt(rounds[0].now, n)]);
      assert rounds[..0] == [] && Before(l, n, rounds, 0) == l;
      BeforeNext(l, m, n, rounds, 1);
      assert rounds[1..][..0] == [];
      k := 1;
      if Verdict(l, n, deadline, rounds[0]).StillWaiting? {
        hide Verdict;
        var i := RunIsAttempts(m, n, deadline, rounds[1..]);
        k := i + 1;
        forall j | 0 < j <= k
          ensures Before(l, n, rounds, j) == Before(m, n, rounds[1..], j - 1)
        {
          BeforeNext(l, m, n, rounds, j);
        }
        hide Before, WaitRun;
      }
    }
  }

  /**
    What WaitN does, for a positive rate. Nothing asked and more than the burst are settled without touching the
    bucket. Any other call makes one attempt for n tokens in each of its rounds, among those of the others, and
    returns in the first round with a verdict.
   */
  lemma WaitIsAttempts(l: Bucket, n: int, deadline: Option<int>, rounds: seq<Round>) returns (k: nat)
    requires l.rate > 0.0
    ensures n <= 0 ==> WaitCall(l, n, deadline, rounds) == (l, NothingAsked)
    ensures n > 0 && n > l.burst ==> WaitCall(l, n, deadline, rounds) == (l, ExceedsBurst)
    ensures 0 < n <= l.burst ==>
      && k <= |rounds| && (forall j :: 0 <= j <= |rounds| ==> Before(l, n, rounds, j).rate == l.rate)
      && WaitCall(l, n, deadline, rounds).0 == Before(l, n, rounds, k)
      && (forall j :: 0 <= j < k - 1 ==> Verdict(Before(l, n, rounds, j), n, deadline, rounds[j]) == StillWaiting)
      && WaitCall(l, n, deadline, rounds).1
           == (if k == 0 then StillWaiting else Verdict(Before(l, n, rounds, k - 1), n, deadline, rounds[k - 1]))
      && (WaitCall(l, n, deadline, rounds).1.StillWaiting? ==> k == |rounds|)
  {
    k := 0;
    hide Verdict, Before, WaitRun;
    if 0 < n <= l.burst { k := RunIsAttempts(l, n, deadline, rounds); }
  }
}
