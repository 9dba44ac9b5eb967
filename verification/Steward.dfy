/**
  The steward: it runs one ward at a time under a context of its own, re-arms a
  timer on every heartbeat, and restarts the ward when the timer fires or the
  ward goes away.
 */
module Steward {
  import opened Options
  import opened Runs
  import opened Sums

  // Fired: the timer's value is waiting in its channel. Spent: stopped, or its value received.
  datatype Timer = Armed | Fired | Spent

  // history of what the steward does
  datatype Entry = WardStarted(k: nat) | WardCancelled(k: nat) | TimerArmed | Heartbeat | TimedOut | Exited

  // Blocked: forever, in a receive from the timer that will never come
  datatype Pc = Monitoring | Done | Blocked

  // pulse: its own heartbeat channel, of capacity one, is full
  datatype State = State(pc: Pc, ward: nat, timer: Timer, pulse: bool, log: seq<Entry>)

  // outcomes of the monitor's select, and what happens around it: the timer fires, somebody reads the
  // steward's heartbeat
  datatype Choice = CtxDone | PulseTick | Beat | WardClosed | Timeout | TimerFires | PulseRead

  function StartLog(k: nat): seq<Entry> { [WardStarted(k), TimerArmed] }

  function Init(): State { State(Monitoring, 0, Armed, false, StartLog(0)) }

  /**
    Stop, and receive from the channel if it returns false. In the older timers
    Stop returns false once the timer has fired, and the value is in the
    channel; in the newer ones it takes the unread value back and returns true.
    Either way it returns false for a timer that is spent, and then the receive
    blocks.
   */
  function StopReturns(t: Timer, newer: bool): bool {
    match t case Armed => true case Fired => newer case Spent => false
  }

  /** The receive after a Stop that returned false goes through. */
  predicate Drains(t: Timer, newer: bool) { StopReturns(t, newer) || t.Fired? }

  /** The current ward is cancelled and the next one started with a fresh timer. */
  function Restart(s: State, log: seq<Entry>): State {
    s.(ward := s.ward + 1, timer := Armed, log := log + [WardCancelled(s.ward)] + StartLog(s.ward + 1))
  }

  function Step(newer: bool, s: State, c: Choice): Option<State> {
    if c.PulseRead? then if s.pulse then Some(s.(pulse := false)) else None
    else if !s.pc.Monitoring? then None
    else match c
      case TimerFires => if s.timer.Armed? then Some(s.(timer := Fired)) else None
      case PulseTick => Some(s.(pulse := true))     // dropped if the channel is full
      case CtxDone =>
        if !Drains(s.timer, newer) then Some(s.(pc := Blocked))
        else Some(s.(pc := Done, timer := Spent, log := s.log + [WardCancelled(s.ward), Exited]))
      case Beat =>
        if !Drains(s.timer, newer) then Some(s.(pc := Blocked))
        else Some(s.(timer := Armed, log := s.log + [Heartbeat, TimerArmed]))
      case WardClosed =>
        if !Drains(s.timer, newer) then Some(s.(pc := Blocked)) else Some(Restart(s, s.log))
      case Timeout => if s.timer.Fired? then Some(Restart(s, s.log + [TimedOut])) else None
  }

  function Steps(newer: bool): (State, Choice) -> Option<State> {
    (s, c) => Step(newer, s, c)
  }

  // ---- what the history must look like ----

  function LiveAfter(live: set<nat>, e: Entry): set<nat> {
    if e.WardStarted? then live + {e.k} else if e.WardCancelled? then live - {e.k} else live
  }

  /** The wards started and not yet cancelled. */
  function Live(log: seq<Entry>): set<nat> {
    if log == [] then {} else LiveAfter(Live(log[..|log| - 1]), log[|log| - 1])
  }

  /** At no time is more than one ward's context uncancelled. */
  ghost predicate OneAtATime(log: seq<Entry>) {
    forall n :: 0 <= n <= |log| ==> |Live(log[..n])| <= 1
  }

  /** Going back from position t the timer is found armed before any heartbeat is. */
  predicate Quiet(log: seq<Entry>, t: nat)
    requires t <= |log|
  {
    t > 0 && !log[t - 1].Heartbeat? && (log[t - 1].TimerArmed? || Quiet(log, t - 1))
  }

  /** A ward is only timed out when no heartbeat has come since the timer was last armed. */
  ghost predicate TimeoutsJustified(log: seq<Entry>) {
    forall t :: 0 <= t < |log| && log[t].TimedOut? ==> Quiet(log, t)
  }

  /** Nothing is live once the steward has exited, and it does nothing more. */
  ghost predicate CleanExit(log: seq<Entry>) {
    forall n :: 0 <= n < |log| && log[n].Exited? ==> n == |log| - 1 && Live(log) == {}
  }

  /** The monitor is running ward k, with the timer armed since its last heartbeat. */
  ghost predicate Running(log: seq<Entry>, k: nat) {
    && OneAtATime(log) && TimeoutsJustified(log) && CleanExit(log)
    && Live(log) == {k} && Quiet(log, |log|)
    && forall n :: 0 <= n < |log| ==> !log[n].Exited?
  }

  ghost predicate Over(log: seq<Entry>) {
    OneAtATime(log) && TimeoutsJustified(log) && CleanExit(log) && Live(log) == {}
  }

  ghost predicate Inv(s: State) {
    match s.pc
    case Monitoring => !s.timer.Spent? && Running(s.log, s.ward)
    case Done => Over(s.log)
    case Blocked => false
  }

  lemma {:induction false} QuietPrefix(log: seq<Entry>, e: Entry, t: nat)
    requires t <= |log|
    ensures Quiet(log + [e], t) == Quiet(log, t)
  {
    if t > 0 {
      QuietPrefix(log, e, t - 1);
    }
  }

  /** One more entry in the history. */
  lemma Append(log: seq<Entry>, e: Entry)
    requires OneAtATime(log) && TimeoutsJustified(log) && CleanExit(log)
    requires forall n :: 0 <= n < |log| ==> !log[n].Exited?
    requires |Live(log + [e])| <= 1
    requires e.TimedOut? ==> Quiet(log, |log|)
    requires e.Exited? ==> Live(log) == {}
    ensures var after := log + [e];
      && OneAtATime(after) && TimeoutsJustified(after) && CleanExit(after)
      && (e.TimerArmed? || (!e.Heartbeat? && Quiet(log, |log|)) ==> Quiet(after, |after|))
      && (!e.Exited? ==> forall n :: 0 <= n < |after| ==> !after[n].Exited?)
  {
    var after := log + [e];
    assert after[..|log|] == log && after[..|after|] == after;
    forall n | 0 <= n <= |after| ensures |Live(after[..n])| <= 1 {
      if n <= |log| { assert after[..n] == log[..n]; }
    }
    forall t: nat | t <= |log| ensures Quiet(after, t) == Quiet(log, t) { QuietPrefix(log, e, t); }
  }

  lemma LiveAppend(log: seq<Entry>, e: Entry)
    ensures Live(log + [e]) == LiveAfter(Live(log), e)
  {
    assert (log + [e])[..|log|] == log;
  }

  lemma BeatLog(log: seq<Entry>, k: nat)
    requires Running(log, k)
    ensures Running(log + [Heartbeat, TimerArmed], k)
  {
    LiveAppend(log, Heartbeat);
    Append(log, Heartbeat);
    var l := log + [Heartbeat];
    LiveAppend(l, TimerArmed);
    Append(l, TimerArmed);
    assert l + [TimerArmed] == log + [Heartbeat, TimerArmed];
  }

  lemma TimeoutLog(log: seq<Entry>, k: nat)
    requires Running(log, k)
    ensures Running(log + [TimedOut], k)
  {
    LiveAppend(log, TimedOut);
    Append(log, TimedOut);
  }

  lemma RestartLog(log: seq<Entry>, k: nat)
    requires Running(log, k)
    ensures Running(log + [WardCancelled(k)] + StartLog(k + 1), k + 1)
  {
    LiveAppend(log, WardCancelled(k));
    Append(log, WardCancelled(k));
    var l := log + [WardCancelled(k)];
    LiveAppend(l, WardStarted(k + 1));
    Append(l, WardStarted(k + 1));
    var m := l + [WardStarted(k + 1)];
    LiveAppend(m, TimerArmed);
    Append(m, TimerArmed);
    assert m + [TimerArmed] == l + StartLog(k + 1);
  }

  lemma ExitLog(log: seq<Entry>, k: nat)
    requires Running(log, k)
    ensures Over(log + [WardCancelled(k), Exited])
  {
    LiveAppend(log, WardCancelled(k));
    Append(log, WardCancelled(k));
    var l := log + [WardCancelled(k)];
    LiveAppend(l, Exited);
    Append(l, Exited);
    assert l + [Exited] == log + [WardCancelled(k), Exited];
  }

  lemma StartsRunning()
    ensures Running(StartLog(0), 0)
  {
    var none: seq<Entry> := [];
    LiveAppend(none, WardStarted(0));
    Append(none, WardStarted(0));
    var m := none + [WardStarted(0)];
    LiveAppend(m, TimerArmed);
    Append(m, TimerArmed);
    assert m + [TimerArmed] == StartLog(0);
  }

  lemma InvStep(newer: bool, s: State, c: Choice)
    requires Inv(s) && Step(newer, s, c).Some?
    ensures Inv(Step(newer, s, c).value)
  {
    hide Running, Over;
    match c
    case CtxDone => ExitLog(s.log, s.ward);
    case Beat => BeatLog(s.log, s.ward);
    case WardClosed => RestartLog(s.log, s.ward);
    case Timeout =>
      TimeoutLog(s.log, s.ward);
      RestartLog(s.log + [TimedOut], s.ward);
    case _ =>
  }

  /**
    Over every run, with timers of either kind: one uncancelled ward at a time
    and none after the exit, no timeout after a heartbeat without a re-arming
    in between, and no receive from a spent timer that would block forever.
   */
  lemma StewardIsSafe(newer: bool, s: State)
    requires Reaches(Steps(newer), Init(), s)
    ensures OneAtATime(s.log) && TimeoutsJustified(s.log) && CleanExit(s.log)
    ensures !s.pc.Blocked?
    ensures s.pc.Monitoring? ==> Live(s.log) == {s.ward}
    ensures s.pc.Done? ==> Live(s.log) == {}
  {
    StartsRunning();
    forall x, c | Inv(x) && Steps(newer)(x, c).Some?
      ensures Inv(Steps(newer)(x, c).value)
    {
      InvStep(newer, x, c);
    }
    ReachesInductive(Steps(newer), Inv, Init(), s);
  }

  // ---- what a run makes of its choices ----

  function IsRestart(c: Choice): nat { if c.Timeout? || c.WardClosed? then 1 else 0 }
  function IsTimeout(c: Choice): nat { if c.Timeout? then 1 else 0 }
  function IsBeat(c: Choice): nat { if c.Beat? then 1 else 0 }

  function Start(e: Entry): nat { if e.WardStarted? then 1 else 0 }
  function Arming(e: Entry): nat { if e.TimerArmed? then 1 else 0 }
  function TimingOut(e: Entry): nat { if e.TimedOut? then 1 else 0 }
  function Beating(e: Entry): nat { if e.Heartbeat? then 1 else 0 }

  /** The timer has fired since it was last armed. */
  predicate FiredSince(run: seq<Choice>) {
    run != []
    && var c := run[|run| - 1];
       c.TimerFires? || (!c.Beat? && !c.WardClosed? && !c.Timeout? && FiredSince(run[..|run| - 1]))
  }

  /** A pulse has been sent since the last one was read. */
  predicate PulseWaiting(run: seq<Choice>) {
    run != []
    && var c := run[|run| - 1]; c.PulseTick? || (!c.PulseRead? && PulseWaiting(run[..|run| - 1]))
  }

  /** What may happen after a run: until the context is done everything but a timeout before the timer fires. */
  predicate Possible(run: seq<Choice>, c: Choice) {
    match c
    case PulseRead => PulseWaiting(run)
    case TimerFires => CtxDone !in run && !FiredSince(run)
    case Timeout => CtxDone !in run && FiredSince(run)
    case _ => CtxDone !in run
  }

  /** The exit comes next, or the next ward is started and the timer armed. */
  predicate ReplacedAt(log: seq<Entry>, t: nat)
    requires t < |log| && log[t].WardCancelled?
  {
    || (t + 1 < |log| && log[t + 1].Exited?)
    || (t + 2 < |log| && log[t + 1] == WardStarted(log[t].k + 1) && log[t + 2].TimerArmed?)
  }

  /** A cancelled ward is replaced at once, unless it is the exit. */
  ghost predicate Replaced(log: seq<Entry>) {
    forall t :: 0 <= t < |log| && log[t].WardCancelled? ==> ReplacedAt(log, t)
  }

  /** A ward that has timed out is cancelled at once, and not for the exit. */
  ghost predicate TimeoutsAct(log: seq<Entry>) {
    forall t :: 0 <= t < |log| && log[t].TimedOut? ==>
      t + 2 < |log| && log[t + 1].WardCancelled? && log[t + 2].WardStarted?
  }

  /** Every heartbeat re-arms the timer at once. */
  ghost predicate BeatsAct(log: seq<Entry>) {
    forall t :: 0 <= t < |log| && log[t].Heartbeat? ==> t + 1 < |log| && log[t + 1].TimerArmed?
  }

  ghost predicate Prompt(log: seq<Entry>) { Replaced(log) && TimeoutsAct(log) && BeatsAct(log) }

  /** Only the ward that is live is ever cancelled. */
  ghost predicate CancelsLive(log: seq<Entry>) {
    forall t :: 0 <= t < |log| && log[t].WardCancelled? ==> Live(log[..t]) == {log[t].k}
  }

  /** The choices of a run count what is in its history. */
  ghost predicate Counted(run: seq<Choice>, s: State) {
    && s.ward == Sum(IsRestart, run)
    && Sum(Start, s.log) == 1 + Sum(IsRestart, run)
    && Sum(TimingOut, s.log) == Sum(IsTimeout, run)
    && Sum(Beating, s.log) == Sum(IsBeat, run)
    && Sum(Arming, s.log) == 1 + Sum(IsRestart, run) + Sum(IsBeat, run)
    && (Exited in s.log <==> CtxDone in run)
  }

  /** They decide what the steward waits for. */
  ghost predicate Decided(run: seq<Choice>, s: State) {
    && (s.pc.Done? <==> CtxDone in run)
    && (s.pc.Monitoring? ==> (s.timer.Fired? <==> FiredSince(run)))
    && (s.pulse <==> PulseWaiting(run))
  }

  /** What a choice adds to the history. */
  function Effect(s: State, c: Choice): seq<Entry> {
    match c
    case CtxDone => [WardCancelled(s.ward), Exited]
    case Beat => [Heartbeat, TimerArmed]
    case WardClosed => [WardCancelled(s.ward), WardStarted(s.ward + 1), TimerArmed]
    case Timeout => [TimedOut, WardCancelled(s.ward), WardStarted(s.ward + 1), TimerArmed]
    case _ => []
  }

  lemma EffectAdded(newer: bool, s: State, c: Choice)
    requires Inv(s) && Step(newer, s, c).Some?
    ensures Step(newer, s, c).value.log == s.log + Effect(s, c) && (s.pc.Monitoring? || c.PulseRead?)
    ensures Step(newer, s, c).value.ward == s.ward + IsRestart(c) && (Exited in Effect(s, c) <==> c.CtxDone?)
  {
  }

  lemma ReplacedConcat(log: seq<Entry>, e: seq<Entry>)
    requires Replaced(log) && Replaced(e)
    ensures Replaced(log + e)
  {
    var n, all := |log|, log + e;
    forall t | 0 <= t < |all| && all[t].WardCancelled?
      ensures ReplacedAt(all, t)
    {
      var part, u := if t < n then log else e, if t < n then t else t - n;
      assert part[u] == all[t] && ReplacedAt(part, u);
      assert u + 1 < |part| ==> part[u + 1] == all[t + 1];
      assert u + 2 < |part| ==> part[u + 2] == all[t + 2];
    }
  }

  lemma PromptConcat(log: seq<Entry>, e: seq<Entry>)
    requires Prompt(log) && Prompt(e)
    ensures Prompt(log + e)
  {
    ReplacedConcat(log, e);
    hide Replaced;
    var n, all := |log|, log + e;
    forall t | 0 <= t < |all| && all[t].TimedOut?
      ensures t + 2 < |all| && all[t + 1].WardCancelled? && all[t + 2].WardStarted?
    {
      if t < n { assert log[t].TimedOut?; } else { assert e[t - n].TimedOut?; }
    }
    forall t | 0 <= t < |all| && all[t].Heartbeat?
      ensures t + 1 < |all| && all[t + 1].TimerArmed?
    {
      if t < n { assert log[t].Heartbeat?; } else { assert e[t - n].Heartbeat?; }
    }
  }

  lemma EffectPrompt(s: State, c: Choice)
    ensures Prompt(Effect(s, c))
  {
  }

  lemma SumsOfEffect(s: State, c: Choice)
    ensures Sum(Start, Effect(s, c)) == IsRestart(c)
    ensures Sum(TimingOut, Effect(s, c)) == IsTimeout(c)
    ensures Sum(Beating, Effect(s, c)) == IsBeat(c)
    ensures Sum(Arming, Effect(s, c)) == IsRestart(c) + IsBeat(c)
  {
    SumFew(Start, Effect(s, c));
    SumFew(TimingOut, Effect(s, c));
    SumFew(Beating, Effect(s, c));
    SumFew(Arming, Effect(s, c));
  }

  lemma CancelAppend(log: seq<Entry>, e: Entry)
    requires CancelsLive(log) && (e.WardCancelled? ==> Live(log) == {e.k})
    ensures CancelsLive(log + [e])
  {
    var after := log + [e];
    forall t | 0 <= t < |after| && after[t].WardCancelled?
      ensures Live(after[..t]) == {after[t].k}
    {
      assert after[..t] == log[..t];
      assert log[..|log|] == log;
    }
  }

  lemma {:induction false} CancelNone(log: seq<Entry>, e: seq<Entry>)
    requires CancelsLive(log) && forall t :: 0 <= t < |e| ==> !e[t].WardCancelled?
    ensures CancelsLive(log + e)
    decreases |e|
  {
    if e == [] {
      assert log + e == log;
    } else {
      CancelAppend(log, e[0]);
      CancelNone(log + [e[0]], e[1..]);
      assert log + [e[0]] + e[1..] == log + e;
    }
  }

  lemma EffectCancels(s: State, c: Choice)
    requires Inv(s) && CancelsLive(s.log) && (s.pc.Monitoring? || c.PulseRead?)
    ensures CancelsLive(s.log + Effect(s, c))
  {
    var k := s.ward;
    assert s.pc.Monitoring? ==> Live(s.log) == {k};
    if c.CtxDone? || c.WardClosed? {
      CancelAppend(s.log, WardCancelled(k));
      CancelNone(s.log + [WardCancelled(k)], Effect(s, c)[1..]);
      assert s.log + [WardCancelled(k)] + Effect(s, c)[1..] == s.log + Effect(s, c);
    } else if c.Timeout? {
      LiveAppend(s.log, TimedOut);
      CancelAppend(s.log, TimedOut);
      CancelAppend(s.log + [TimedOut], WardCancelled(k));
      CancelNone(s.log + [TimedOut] + [WardCancelled(k)], Effect(s, c)[2..]);
      assert s.log + [TimedOut] + [WardCancelled(k)] + Effect(s, c)[2..] == s.log + Effect(s, c);
    } else {
      CancelNone(s.log, Effect(s, c));
    }
  }

  lemma CountedStep(newer: bool, run: seq<Choice>, s: State, c: Choice)
    requires Inv(s) && Counted(run, s) && Step(newer, s, c).Some?
    ensures Counted(run + [c], Step(newer, s, c).value)
  {
    EffectAdded(newer, s, c);
    SumsOfEffect(s, c);
    hide Step, Effect, Sum, Inv, IsRestart, IsTimeout, IsBeat;
    SumConcat(Start, s.log, Effect(s, c));
    SumConcat(TimingOut, s.log, Effect(s, c));
    SumConcat(Beating, s.log, Effect(s, c));
    SumConcat(Arming, s.log, Effect(s, c));
    SumAppend(IsRestart, run, c);
    SumAppend(IsTimeout, run, c);
    SumAppend(IsBeat, run, c);
  }

  lemma DecidedStep(newer: bool, run: seq<Choice>, s: State, c: Choice)
    requires Inv(s) && Decided(run, s) && Step(newer, s, c).Some?
    ensures Decided(run + [c], Step(newer, s, c).value)
  {
    assert (run + [c])[..|run|] == run;
    hide Running, Over;
  }

  ghost predicate Told(run: seq<Choice>, s: State) {
    Inv(s) && Counted(run, s) && Decided(run, s) && Prompt(s.log) && CancelsLive(s.log)
  }

  lemma ToldStep(newer: bool, run: seq<Choice>, s: State, c: Choice)
    requires Told(run, s) && Step(newer, s, c).Some?
    ensures Told(run + [c], Step(newer, s, c).value)
  {
    hide Counted, Decided, Prompt, CancelsLive, Running, Over, Step, Effect;
    InvStep(newer, s, c);
    CountedStep(newer, run, s, c);
    DecidedStep(newer, run, s, c);
    EffectAdded(newer, s, c);
    EffectPrompt(s, c);
    PromptConcat(s.log, Effect(s, c));
    EffectCancels(s, c);
  }

  lemma RunTold(newer: bool, run: seq<Choice>, s: State)
    requires Exec(Steps(newer), Init(), run) == Some(s)
    ensures Told(run, s)
  {
    StartsRunning();
    SumFew(Start, StartLog(0));
    SumFew(TimingOut, StartLog(0));
    SumFew(Beating, StartLog(0));
    SumFew(Arming, StartLog(0));
    assert Told([], Init());
    hide Told, Step;
    forall h, x, c | Told(h, x) && Steps(newer)(x, c).Some?
      ensures Told(h + [c], Steps(newer)(x, c).value)
    {
      ToldStep(newer, h, x, c);
    }
    HistoryHolds(Steps(newer), Told, Init(), run, s);
  }

  /**
    What every run does, with timers of either kind. One ward is started at first and one for each timeout and
    each ward that has gone away, at once, after the live one has been cancelled; the timer is armed with each
    ward and each heartbeat; the exit comes exactly when the context is done.
   */
  lemma RestartsExactly(newer: bool, run: seq<Choice>, s: State)
    requires Exec(Steps(newer), Init(), run) == Some(s)
    ensures Prompt(s.log) && CancelsLive(s.log)
    ensures s.ward == Sum(IsRestart, run) && Sum(Start, s.log) == 1 + Sum(IsRestart, run)
    ensures Sum(TimingOut, s.log) == Sum(IsTimeout, run) && Sum(Beating, s.log) == Sum(IsBeat, run)
    ensures Sum(Arming, s.log) == 1 + Sum(IsRestart, run) + Sum(IsBeat, run)
    ensures Exited in s.log <==> CtxDone in run
  {
    RunTold(newer, run, s);
  }

  /** And these are all its runs: what can come next depends on what has come so far, and on nothing else. */
  lemma PossibleExactly(newer: bool, run: seq<Choice>, c: Choice)
    requires Exec(Steps(newer), Init(), run).Some?
    ensures Exec(Steps(newer), Init(), run + [c]).Some? <==> Possible(run, c)
  {
    var s := Exec(Steps(newer), Init(), run).value;
    RunTold(newer, run, s);
    assert (run + [c])[..|run|] == run;
    ExecNext(Steps(newer), Init(), run + [c], |run|);
    assert (run + [c])[..|run| + 1] == run + [c];
    assert s.pc.Monitoring? <==> CtxDone !in run;
    hide Running, Over, Prompt, CancelsLive;
  }

  /**
    The goroutine, given what each of its selects yields; it stops where the
    next outcome is not one that can occur. ward and timer are the two
    variables each cycle of the outer loop sets anew.
   */
  method Steward(newer: bool, choices: seq<Choice>) returns (log: seq<Entry>, used: nat, ghost s: State)
    ensures used <= |choices| && Exec(Steps(newer), Init(), choices[..used]) == Some(s)
    ensures used < |choices| ==> Step(newer, s, choices[used]).None? || s.pc.Done?
    ensures log == s.log
  {
    log, used := [], 0;
    s := Init();
    var ward, pulse, running := 0, false, true;
    while running
      invariant used <= |choices| && Exec(Steps(newer), Init(), choices[..used]) == Some(s)
      invariant running ==> s == State(Monitoring, ward, Armed, pulse, log + StartLog(ward))
      invariant !running ==> s.pc.Done? && s.log == log
      decreases |choices| - used, running
    {
      // start a ward under a context of its own, with a fresh timer
      log := log + [WardStarted(ward), TimerArmed];
      var timer, monitor := Armed, true;
      ghost var before := used;
      while monitor
        invariant used <= |choices| && Exec(Steps(newer), Init(), choices[..used]) == Some(s)
        invariant monitor ==> running && !timer.Spent? && s == State(Monitoring, ward, timer, pulse, log)
        invariant !monitor && running ==> s == State(Monitoring, ward, Armed, pulse, log + StartLog(ward))
        invariant before <= used && (!monitor ==> before < used)
        invariant !running ==> s.pc.Done? && s.log == log
        decreases |choices| - used, monitor
      {
        if used == |choices| || (choices[used].TimerFires? && !timer.Armed?)
           || (choices[used].Timeout? && !timer.Fired?) || (choices[used].PulseRead? && !pulse) {
          return;
        }
        ExecNext(Steps(newer), Init(), choices, used);
        s := Step(newer, s, choices[used]).value;
        match choices[used] {
        case TimerFires => timer := Fired;
        case PulseRead => pulse := false;
        case PulseTick => pulse := true;
        case CtxDone =>
          assert Drains(timer, newer);   // Stop, and the receive if it returns false
          log, monitor, running := log + [WardCancelled(ward), Exited], false, false;
        case Beat =>
          assert Drains(timer, newer);
          log, timer := log + [Heartbeat, TimerArmed], Armed;
        case WardClosed =>
          assert Drains(timer, newer);
          log, ward, monitor := log + [WardCancelled(ward)], ward + 1, false;
        case Timeout =>
          log, ward, monitor := log + [TimedOut] + [WardCancelled(ward)], ward + 1, false;
        }
        used := used + 1;
      }
    }
  }
}
