/**
  What becomes of a call of the intake: a pending job stays pending until it is
  accepted, or refused for a reason that the run of the call has met. In
  particular a SubmitWithContext that finds no room tries again, until there is
  room, its context is done, or closedCh is closed.
 */
module IntakeCalls {
  import opened Options
  import opened Runs
  import opened Intake

  function KindOf(x: Sub): Kind
    requires !x.Idle?
  {
    if x.Sent? || x.Retry? then SubmitWithContext else x.kind
  }

  /** The k-th action is the send of job x by goroutine i, and it meets a full queue. */
  ghost predicate FullAt(c: Config, s: State, run: seq<Action>, i: nat, x: Job, k: nat) {
    && k < |run| && run[k] == Submit(i, Go)
    && Exec(Steps(c), s, run[..k]).Some?
    && var u := Exec(Steps(c), s, run[..k]).value;
       i < |u.subs| && u.subs[i].Sending? && u.subs[i].job == x && |u.jobs.queue| >= c.cap
  }

  ghost predicate MetFull(c: Config, s: State, run: seq<Action>, i: nat, x: Job) {
    exists k: nat :: FullAt(c, s, run, i, x, k)
  }

  /** A refusal, by what has happened: ctxDone, the caller's context was; full, the send met a full queue. */
  predicate Reason(g: Gate, kind: Kind, verdict: Verdict, ctxDone: bool, full: bool) {
    match verdict
    case Accepted => false
    case ErrClosed => g.closedCh
    case NoRoom => kind.TrySubmit? && full
    case CtxErr => kind.SubmitWithContext? && ctxDone
  }

  /** Goroutine i still holds the job; about to unlock without having sent it, it has met a reason. */
  predicate StillPending(g: Gate, pc: Sub, x: Job, kind: Kind, full: bool) {
    && pc.Pending() && pc.job == x && KindOf(pc) == kind
    && (pc.Release? ==> if pc.verdict.NoRoom? then full else pc.verdict.ErrClosed? && g.closedCh)
  }

  /** The job is sent, or its call has returned without sending it. */
  predicate Settled(g: Gate, m: Jobs, x: Job, kind: Kind, ctxDone: bool, full: bool) {
    || x in m.accepted
    || (x in m.rejected && m.rejected[x].kind == kind && Reason(g, kind, m.rejected[x].verdict, ctxDone, full))
  }

  /** What has become of job x of goroutine i. */
  predicate Fate(s: State, i: nat, x: Job, kind: Kind, ctxDone: bool, full: bool) {
    || Settled(s.gate, s.jobs, x, kind, ctxDone, full)
    || (i < |s.subs| && StillPending(s.gate, s.subs[i], x, kind, full))
  }

  lemma TakeFate(s: State, i: nat, x: Job, kind: Kind, ctxDone: bool, full: bool)
    requires Fate(s, i, x, kind, ctxDone, full) && TakeStep(s).Some?
    ensures Fate(TakeStep(s).value, i, x, kind, ctxDone, full)
  {
  }

  lemma CloserFate(s: State, k: nat, i: nat, x: Job, kind: Kind, ctxDone: bool, full: bool)
    requires Fate(s, i, x, kind, ctxDone, full) && k < |s.closers| && CloseStep(s, k).Some?
    ensures Fate(CloseStep(s, k).value, i, x, kind, ctxDone, full)
  {
    CloserFrame(s, k);
    assert s.gate.closedCh ==> CloseStep(s, k).value.gate.closedCh;
    hide CloseStep;
  }

  /** What is settled stays. */
  lemma SettledStays(c: Config, s: State, j: nat, op: Op, x: Job, kind: Kind, ctxDone: bool, full: bool)
    requires IdInv(s.jobs, s.subs) && Settled(s.gate, s.jobs, x, kind, ctxDone, full)
    requires j < |s.subs| && SubStep(c, s, j, op).Some?
    ensures var t := SubStep(c, s, j, op).value; Settled(t.gate, t.jobs, x, kind, ctxDone, full)
  {
    assert s.subs[j].Pending() ==> s.subs[j].job !in s.jobs.rejected;
    hide IdInv;
  }

  /** What is pending stays with its goroutine when another moves. */
  lemma OthersLeaveIt(c: Config, s: State, j: nat, op: Op, i: nat, x: Job, kind: Kind, full: bool)
    requires i < |s.subs| && StillPending(s.gate, s.subs[i], x, kind, full)
    requires j != i && j < |s.subs| && SubStep(c, s, j, op).Some?
    ensures var t := SubStep(c, s, j, op).value;
      i < |t.subs| && StillPending(t.gate, t.subs[i], x, kind, full)
  {
  }

  /** The goroutine itself moves: it goes on, or settles the job for a reason it has now met. */
  lemma OwnFate(c: Config, s: State, op: Op, i: nat, x: Job, kind: Kind, ctxDone: bool, full: bool)
    requires i < |s.subs| && StillPending(s.gate, s.subs[i], x, kind, full) && SubStep(c, s, i, op).Some?
    ensures var met := s.subs[i].Sending? && op.Go? && |s.jobs.queue| >= c.cap;
      Fate(SubStep(c, s, i, op).value, i, x, kind, ctxDone || op.CtxDone?, full || met)
  {
  }

  lemma PendingJob(s: State, i: nat, x: Job, kind: Kind, full: bool)
    requires i < |s.subs| && StillPending(s.gate, s.subs[i], x, kind, full)
    ensures s.subs[i].Sending? ==> s.subs[i].job == x
  {
  }

  lemma MoreReasons(g: Gate, m: Jobs, x: Job, kind: Kind, ctxDone: bool, full: bool, ctxDone': bool, full': bool)
    requires Settled(g, m, x, kind, ctxDone, full) && (ctxDone ==> ctxDone') && (full ==> full')
    ensures Settled(g, m, x, kind, ctxDone', full')
  {
  }

  lemma FateStep(c: Config, s: State, a: Action, i: nat, x: Job, kind: Kind, ctxDone: bool, full: bool)
    requires Inv(c, s) && Fate(s, i, x, kind, ctxDone, full) && Step(c, s, a).Some?
    ensures var met := a == Submit(i, Go) && i < |s.subs| && s.subs[i].Sending? && s.subs[i].job == x
                       && |s.jobs.queue| >= c.cap;
      Fate(Step(c, s, a).value, i, x, kind, ctxDone || a == Submit(i, CtxDone), full || met)
  {
    hide SafeInv, IdInv, FlowInv, RefusalInv, SubStep, CloseStep, Settled, StillPending;
    match a
    case Take => TakeFate(s, i, x, kind, ctxDone, full);
    case Close(k) => CloserFate(s, k, i, x, kind, ctxDone, full);
    case Submit(j, op) =>
      if Settled(s.gate, s.jobs, x, kind, ctxDone, full) {
        var t := SubStep(c, s, j, op).value;
        SettledStays(c, s, j, op, x, kind, ctxDone, full);
        var met := a == Submit(i, Go) && i < |s.subs| && s.subs[i].Sending? && s.subs[i].job == x
                   && |s.jobs.queue| >= c.cap;
        MoreReasons(t.gate, t.jobs, x, kind, ctxDone, full, ctxDone || a == Submit(i, CtxDone), full || met);
      } else if j == i {
        PendingJob(s, i, x, kind, full);
        OwnFate(c, s, op, i, x, kind, ctxDone, full);
      } else {
        OthersLeaveIt(c, s, j, op, i, x, kind, full);
      }
  }

  lemma FullLater(c: Config, s: State, h: seq<Action>, a: Action, i: nat, x: Job)
    requires MetFull(c, s, h, i, x)
    ensures MetFull(c, s, h + [a], i, x)
  {
    var k: nat :| FullAt(c, s, h, i, x, k);
    assert (h + [a])[..k] == h[..k];
    assert FullAt(c, s, h + [a], i, x, k);
  }

  lemma FullNow(c: Config, s: State, h: seq<Action>, u: State, i: nat, x: Job)
    requires Exec(Steps(c), s, h) == Some(u) && i < |u.subs| && u.subs[i].Sending? && u.subs[i].job == x
    requires |u.jobs.queue| >= c.cap
    ensures MetFull(c, s, h + [Submit(i, Go)], i, x)
  {
    assert (h + [Submit(i, Go)])[..|h|] == h;
    assert FullAt(c, s, h + [Submit(i, Go)], i, x, |h|);
  }

  lemma OneMore(c: Config, s: State, h: seq<Action>, u: State, a: Action)
    requires Exec(Steps(c), s, h) == Some(u) && Step(c, u, a).Some?
    ensures Exec(Steps(c), s, h + [a]) == Step(c, u, a)
  {
    assert (h + [a])[..|h|] == h && (h + [a])[..|h| + 1] == h + [a];
    ExecNext(Steps(c), s, h + [a], |h|);
  }

  /** The law of one call: where its job is after a run, by what the run holds. */
  ghost predicate Law(c: Config, s: State, i: nat, x: Job, kind: Kind, h: seq<Action>, u: State) {
    && Inv(c, u) && Exec(Steps(c), s, h) == Some(u)
    && Fate(u, i, x, kind, Submit(i, CtxDone) in h, MetFull(c, s, h, i, x))
  }

  lemma LawStep(c: Config, s: State, i: nat, x: Job, kind: Kind, h: seq<Action>, u: State, a: Action)
    requires Law(c, s, i, x, kind, h, u) && Step(c, u, a).Some?
    ensures Law(c, s, i, x, kind, h + [a], Step(c, u, a).value)
  {
    var t := Step(c, u, a).value;
    InvStep(c, u, a);
    OneMore(c, s, h, u, a);
    FateStep(c, u, a, i, x, kind, Submit(i, CtxDone) in h, MetFull(c, s, h, i, x));
    if MetFull(c, s, h, i, x) { FullLater(c, s, h, a, i, x); }
    if a == Submit(i, Go) && i < |u.subs| && u.subs[i].Sending? && u.subs[i].job == x && |u.jobs.queue| >= c.cap {
      FullNow(c, s, h, u, i, x);
    }
    hide Inv, Step, MetFull;
  }

  /**
    Over every run, whatever other goroutines do: the job of a call is accepted, is still pending in it, or has
    been refused, for a reason this run gives: closedCh is closed, this caller's context was done, or the one send
    of a TrySubmit met a full queue.
   */
  lemma FateOfACall(c: Config, s: State, run: seq<Action>, t: State, i: nat)
    requires Inv(c, s) && Exec(Steps(c), s, run) == Some(t)
    requires i < |s.subs| && s.subs[i].Pending() && !s.subs[i].Release?
    ensures var x := s.subs[i].job;
      Fate(t, i, x, KindOf(s.subs[i]), Submit(i, CtxDone) in run, MetFull(c, s, run, i, x))
  {
    var x, kind := s.subs[i].job, KindOf(s.subs[i]);
    var law := (h: seq<Action>, u: State) => Law(c, s, i, x, kind, h, u);
    assert law([], s);
    hide Step, Inv, Fate, MetFull;
    forall h, u, a | law(h, u) && Steps(c)(u, a).Some?
      ensures law(h + [a], Steps(c)(u, a).value)
    {
      LawStep(c, s, i, x, kind, h, u, a);
    }
    HistoryHolds(Steps(c), law, s, run, t);
  }

  /**
    So a SubmitWithContext whose context is not done keeps trying: on an open intake its job is accepted or still
    pending, and the one thing it can be refused for is a closed closedCh.
   */
  lemma KeepsTrying(c: Config, s: State, run: seq<Action>, t: State, i: nat, job: Job)
    requires Inv(c, s) && i < |s.subs| && s.subs[i] == FirstCheck(SubmitWithContext, job)
    requires Exec(Steps(c), s, run) == Some(t) && Submit(i, CtxDone) !in run
    ensures || job in t.jobs.accepted
            || (i < |t.subs| && t.subs[i].Pending() && t.subs[i].job == job)
            || (job in t.jobs.rejected && t.jobs.rejected[job] == Refusal(SubmitWithContext, ErrClosed) && t.gate.closedCh)
  {
    FateOfACall(c, s, run, t, i);
  }

  // ---- and with room it gets through ----

  /** What a submitter does next on its way to a send. */
  function Onward(x: Sub): Op { if x.Idle? then Begin(SubmitWithContext) else Go }

  /** How far it is from its next send. */
  function Way(x: Sub): nat {
    match x
    case Sending(_, _) => 0 case Recheck(_, _) => 1 case WantLock(_, _) => 2 case FirstCheck(_, _) => 3
    case Retry(_) => 4 case Idle => 4 case Release(_, _, _) => 5 case Post(_, _) => 6 case Sent(_) => 7
  }

  /** With mu free, or its own, it gets nearer, and then sends. */
  lemma SubmitterNears(c: Config, s: State, i: nat)
    requires !s.panicked && !s.gate.closedCh && !s.gate.queueClosed && |s.jobs.queue| < c.cap && i < |s.subs|
    requires s.gate.mu == if s.subs[i].HoldsLock() then Submitter(i) else Free
    ensures var a := Submit(i, Onward(s.subs[i]));
      && Step(c, s, a).Some?
      && var t := Step(c, s, a).value; var x, y := s.subs[i], t.subs[i];
         && !t.gate.closedCh && t.gate.mu == (if y.HoldsLock() then Submitter(i) else Free)
         && t.jobs.taken == s.jobs.taken
         && (if x.Sending? then t.jobs.queue != [] && y == Admitted(x.kind, x.job) else t.jobs.queue == s.jobs.queue)
         && (!x.Sending? && !x.Sent? ==> Way(y) < Way(x) && !y.Sent? && !y.Post?)
  {
  }

  /** With room in an open queue, the steps of a call alone take its job into the queue. */
  lemma {:induction false} GetsThrough(c: Config, s0: State, s: State, i: nat) returns (t: State)
    requires Reaches(Steps(c), s0, s) && !s.panicked && !s.gate.closedCh && !s.gate.queueClosed
    requires |s.jobs.queue| < c.cap && i < |s.subs| && s.subs[i].Pending() && !s.subs[i].Release?
    requires s.gate.mu == if s.subs[i].HoldsLock() then Submitter(i) else Free
    ensures Reaches(Steps(c), s0, t)
    ensures t.jobs.accepted == s.jobs.accepted + [s.subs[i].job] && t.jobs.queue == s.jobs.queue + [s.subs[i].job]
    decreases Way(s.subs[i])
  {
    SubmitterNears(c, s, i);
    t := Do(Steps(c), s0, s, Submit(i, Go));
    if !s.subs[i].Sending? { t := GetsThrough(c, s0, t, i); }
  }

  /** What an accepted call has changed when it has returned; jobs says where its job has gone. */
  function Accepts(x: State, jobs: Jobs): State {
    x.(jobs := jobs.(accepted := jobs.accepted + [jobs.nextJob], nextJob := jobs.nextJob + 1))
  }

  /** A SubmitWithContext that holds no lock gives up when its context is done, after at most one more sleep. */
  lemma GivesUp(c: Config, s0: State, s: State, i: nat) returns (t: State)
    requires Reaches(Steps(c), s0, s) && !s.panicked && i < |s.subs|
    requires s.subs[i].Retry? || (s.subs[i].FirstCheck? && s.subs[i].kind.SubmitWithContext?)
    ensures Reaches(Steps(c), s0, t) && t.subs == s.subs[i := Idle] && t.gate == s.gate
    ensures t.jobs == s.jobs.(rejected := s.jobs.rejected[s.subs[i].job := Refusal(SubmitWithContext, CtxErr)])
  {
    t := s;
    if s.subs[i].Retry? && !c.wakesInRetry { t := Do(Steps(c), s0, t, Submit(i, Go)); }
    t := Do(Steps(c), s0, t, Submit(i, CtxDone));
    assert t.subs == s.subs[i := Idle];
  }

  /** And once closedCh is closed a waiting or beginning call returns ErrClosed, after at most one more sleep. */
  lemma LearnsOfClose(c: Config, s0: State, s: State, i: nat) returns (t: State)
    requires Reaches(Steps(c), s0, s) && !s.panicked && s.gate.closedCh && i < |s.subs|
    requires s.subs[i].Retry? || s.subs[i].FirstCheck?
    ensures Reaches(Steps(c), s0, t) && t.subs == s.subs[i := Idle] && t.gate == s.gate
    ensures t.jobs == s.jobs.(rejected := s.jobs.rejected[s.subs[i].job := Refusal(KindOf(s.subs[i]), ErrClosed)])
    ensures s.subs[i].Retry? && c.wakesInRetry ==> Step(c, s, Submit(i, SeeClosed)) == Some(t)
  {
    t := s;
    if s.subs[i].Retry? && c.wakesInRetry {
      t := Do(Steps(c), s0, t, Submit(i, SeeClosed));
    } else {
      if s.subs[i].Retry? { t := Do(Steps(c), s0, t, Submit(i, Go)); }
      t := Do(Steps(c), s0, t, Submit(i, Go));
    }
    assert t.subs == s.subs[i := Idle];
  }

  // ---- Close ----

  lemma OnceKept(c: Config, s: State, i: nat, op: Op)
    requires i < |s.subs| && SubStep(c, s, i, op).Some?
    ensures var t := SubStep(c, s, i, op).value; t.closers == s.closers && t.gate.once == s.gate.once
  {
  }

  lemma ReturnStep(c: Config, s: State, a: Action, k: nat)
    requires SafeInv(s) && Step(c, s, a).Some? && (k < |s.closers| && s.closers[k].Outside? ==> s.gate.once.Done?)
    ensures var t := Step(c, s, a).value; k < |t.closers| && t.closers[k].Outside? ==> t.gate.once.Done?
  {
    if a.Submit? { OnceKept(c, s, a.i, a.op); }
    hide SubStep, LockInv;
  }

  /** A call of Close that was in progress and has returned leaves everything closed, whichever goroutine closed it. */
  lemma CloseReturnsClosed(c: Config, s: State, run: seq<Action>, t: State, k: nat)
    requires SafeInv(s) && k < |s.closers| && !s.closers[k].Outside? && Exec(Steps(c), s, run) == Some(t)
    requires k < |t.closers| && t.closers[k].Outside?
    ensures t.gate.once.Done? && t.gate.closedCh && t.gate.cancelled && t.gate.queueClosed
  {
    var inv := (x: State) => SafeInv(x) && (k < |x.closers| && x.closers[k].Outside? ==> x.gate.once.Done?);
    forall x, a | inv(x) && Steps(c)(x, a).Some?
      ensures inv(Steps(c)(x, a).value)
    {
      SafeStep(c, x, a);
      ReturnStep(c, x, a, k);
    }
    InductiveHolds(Steps(c), inv, s, run);
    DoneFacts(t);
  }
}
