/**
  The submit/close protocol both worker pools share: a queue of bounded
  capacity, the channel closedCh, the mutex mu that serialises every send with
  the close of the queue, and the once-guarded Close. Any number of submitting
  and closing goroutines; one action per check, lock operation or channel
  operation.
 */
module Intake {
  import opened Options
  import opened Runs

  // Every call of TrySubmit or SubmitWithContext gets a job of its own.
  type Job = nat

  // wakesInRetry: the dynamic pool's retry wait also watches ctx and closedCh; the fixed pool just sleeps.
  datatype Config = Config(cap: nat, wakesInRetry: bool)

  datatype Kind = TrySubmit | SubmitWithContext
  datatype Verdict = Accepted | ErrClosed | NoRoom | CtxErr

  // what a call that has not sent its job returned
  datatype Refusal = Refusal(kind: Kind, verdict: Verdict)

  /** Where a submitting goroutine stands. Recheck, Sending, Sent, Release and Post of a TrySubmit hold mu. */
  datatype Sub =
    | Idle
    | FirstCheck(kind: Kind, job: Job)
    | WantLock(kind: Kind, job: Job)
    | Recheck(kind: Kind, job: Job)
    | Sending(kind: Kind, job: Job)
    | Sent(job: Job)                    // SubmitWithContext, before its unlock
    | Post(kind: Kind, job: Job)        // after the send (and, for SubmitWithContext, the unlock)
    | Release(kind: Kind, job: Job, verdict: Verdict)
    | Retry(job: Job)
  {
    predicate HoldsLock() {
      Recheck? || Sending? || Sent? || Release? || (Post? && kind.TrySubmit?)
    }

    /** From the re-check under mu until a sent job is let go of, still under mu. */
    predicate InSend() {
      Sending? || Sent? || (Post? && kind.TrySubmit?)
    }

    /** The job of a call that has not (yet) put it into the queue. */
    predicate Pending() {
      FirstCheck? || WantLock? || Recheck? || Sending? || Retry? || (Release? && !verdict.Accepted?)
    }
  }

  /** Where a goroutine inside Close stands; Queue and Unlock hold mu. */
  datatype Closer = Outside | AtOnce | AtClosedCh | AtCancel | AtLock | AtQueue | AtUnlock | AtDone {
    predicate HoldsLock() { AtQueue? || AtUnlock? }
    predicate InBody() { !Outside? && !AtOnce? }
    predicate PastClosedCh() { InBody() && !AtClosedCh? }
    predicate PastCancel() { PastClosedCh() && !AtCancel? }
    predicate PastQueue() { AtUnlock? || AtDone? }
  }

  datatype Holder = Free | Submitter(i: nat) | Closing(k: nat)
  datatype Once = Fresh | Running(k: nat) | Done

  /** The channel and context Close closes, the lock, and the once guard. */
  datatype Gate = Gate(closedCh: bool, cancelled: bool, queueClosed: bool, mu: Holder, once: Once)

  /**
    The queue, with the history of every job: sent (in order), received by a worker (in order), or
    returned unsent.
   */
  datatype Jobs = Jobs(queue: seq<Job>, accepted: seq<Job>, taken: seq<Job>, rejected: map<Job, Refusal>, nextJob: Job)

  // panicked: a send on the closed queue, or a second close of a channel
  datatype State = State(gate: Gate, jobs: Jobs, subs: seq<Sub>, closers: seq<Closer>, panicked: bool)

  /**
    What a submitting goroutine does next. Go is the one thing its program
    counter allows; the others are the choices of a select: the caller's
    context is done, closedCh is seen in the retry wait, or an unbuffered send
    meets a receiver.
   */
  datatype Op = Begin(kind: Kind) | Go | CtxDone | SeeClosed | Meet

  datatype Action = Submit(i: nat, op: Op) | Close(k: nat) | Take

  function Init(subs: nat, closers: nat): State {
    State(Gate(false, false, false, Free, Fresh), Jobs([], [], [], map[], 0),
          seq(subs, i => Idle), seq(closers, i => Outside), false)
  }

  function Goto(s: State, i: nat, pc: Sub): State
    requires i < |s.subs|
  {
    s.(subs := s.subs[i := pc])
  }

  function GotoWith(s: State, i: nat, pc: Sub, mu: Holder): State
    requires i < |s.subs|
  {
    s.(subs := s.subs[i := pc], gate := s.gate.(mu := mu))
  }

  /** A new call, with a job of its own. */
  function BeginStep(s: State, i: nat, kind: Kind): State
    requires i < |s.subs|
  {
    s.(subs := s.subs[i := FirstCheck(kind, s.jobs.nextJob)], jobs := s.jobs.(nextJob := s.jobs.nextJob + 1))
  }

  /** The call of goroutine i returns without having sent its job. */
  function Reject(s: State, i: nat, kind: Kind, job: Job, verdict: Verdict): State
    requires i < |s.subs|
  {
    s.(subs := s.subs[i := Idle], jobs := s.jobs.(rejected := s.jobs.rejected[job := Refusal(kind, verdict)]))
  }

  /** Where a goroutine stands once its send has succeeded. */
  function Admitted(kind: Kind, job: Job): Sub {
    if kind.TrySubmit? then Post(TrySubmit, job) else Sent(job)
  }

  /** The non-blocking send under mu. */
  function SendStep(c: Config, s: State, i: nat, kind: Kind, job: Job, op: Op): Option<State>
    requires i < |s.subs|
  {
    if op.Go? then
      if s.gate.queueClosed then Some(s.(panicked := true))
      else if |s.jobs.queue| < c.cap then
        Some(s.(subs := s.subs[i := Admitted(kind, job)],
                jobs := s.jobs.(queue := s.jobs.queue + [job], accepted := s.jobs.accepted + [job])))
      else Some(Goto(s, i, Release(kind, job, NoRoom)))
    else if op.Meet? && !s.gate.queueClosed && c.cap == 0 && s.jobs.queue == [] then
      Some(s.(subs := s.subs[i := Admitted(kind, job)],
              jobs := s.jobs.(accepted := s.jobs.accepted + [job], taken := s.jobs.taken + [job])))
    else None
  }

  /** mu is freed and the call returns, or waits for another round. */
  function ReleaseStep(s: State, i: nat, kind: Kind, job: Job, verdict: Verdict): State
    requires i < |s.subs|
  {
    if verdict.Accepted? then GotoWith(s, i, Idle, Free)
    else if verdict.NoRoom? && kind.SubmitWithContext? then GotoWith(s, i, Retry(job), Free)
    else s.(subs := s.subs[i := Idle], gate := s.gate.(mu := Free),
            jobs := s.jobs.(rejected := s.jobs.rejected[job := Refusal(kind, verdict)]))
  }

  function SubStep(c: Config, s: State, i: nat, op: Op): Option<State>
    requires i < |s.subs|
  {
    match s.subs[i]
    case Idle =>
      if op.Begin? then Some(BeginStep(s, i, op.kind)) else None
    case FirstCheck(kind, job) =>
      if op.Go? then Some(if s.gate.closedCh then Reject(s, i, kind, job, ErrClosed) else Goto(s, i, WantLock(kind, job)))
      else if op.CtxDone? && kind.SubmitWithContext? then Some(Reject(s, i, kind, job, CtxErr))
      else None
    case WantLock(kind, job) =>
      if op.Go? && s.gate.mu.Free? then Some(GotoWith(s, i, Recheck(kind, job), Submitter(i))) else None
    case Recheck(kind, job) =>
      if op.Go? then Some(Goto(s, i, if s.gate.closedCh then Release(kind, job, ErrClosed) else Sending(kind, job)))
      else None
    case Sending(kind, job) => SendStep(c, s, i, kind, job, op)
    case Sent(job) =>
      if op.Go? then Some(GotoWith(s, i, Post(SubmitWithContext, job), Free)) else None
    case Post(kind, job) =>
      if op.Go? then Some(Goto(s, i, if kind.TrySubmit? then Release(kind, job, Accepted) else Idle)) else None
    case Release(kind, job, verdict) =>
      if op.Go? then Some(ReleaseStep(s, i, kind, job, verdict)) else None
    case Retry(job) =>
      if op.Go? then Some(Goto(s, i, FirstCheck(SubmitWithContext, job)))
      else if c.wakesInRetry && op.CtxDone? then Some(Reject(s, i, SubmitWithContext, job, CtxErr))
      else if c.wakesInRetry && op.SeeClosed? && s.gate.closedCh then Some(Reject(s, i, SubmitWithContext, job, ErrClosed))
      else None
  }

  function MoveCloser(s: State, k: nat, pc: Closer, gate: Gate): State
    requires k < |s.closers|
  {
    s.(closers := s.closers[k := pc], gate := gate)
  }

  /** The body runs once; a concurrent caller of Close blocks until it is done, a later one returns at once. */
  function CloseStep(s: State, k: nat): Option<State>
    requires k < |s.closers|
  {
    var g := s.gate;
    match s.closers[k]
    case Outside => Some(MoveCloser(s, k, AtOnce, g))
    case AtOnce =>
      if g.once.Fresh? then Some(MoveCloser(s, k, AtClosedCh, g.(once := Running(k))))
      else if g.once.Done? then Some(MoveCloser(s, k, Outside, g))
      else None
    case AtClosedCh =>
      if g.closedCh then Some(s.(panicked := true)) else Some(MoveCloser(s, k, AtCancel, g.(closedCh := true)))
    case AtCancel => Some(MoveCloser(s, k, AtLock, g.(cancelled := true)))
    case AtLock => if g.mu.Free? then Some(MoveCloser(s, k, AtQueue, g.(mu := Closing(k)))) else None
    case AtQueue =>
      if g.queueClosed then Some(s.(panicked := true)) else Some(MoveCloser(s, k, AtUnlock, g.(queueClosed := true)))
    case AtUnlock => Some(MoveCloser(s, k, AtDone, g.(mu := Free)))
    case AtDone => Some(MoveCloser(s, k, Outside, g.(once := Done)))
  }

  function TakeStep(s: State): Option<State> {
    if s.jobs.queue == [] then None
    else Some(s.(jobs := s.jobs.(queue := s.jobs.queue[1..], taken := s.jobs.taken + [s.jobs.queue[0]])))
  }

  function Step(c: Config, s: State, a: Action): Option<State> {
    if s.panicked then None
    else match a
      case Submit(i, op) => if i < |s.subs| then SubStep(c, s, i, op) else None
      case Close(k) => if k < |s.closers| then CloseStep(s, k) else None
      case Take => TakeStep(s)
  }

  /** The job a worker receives in a step, if any. */
  function Received(s: State, a: Action): seq<Job> {
    if a.Take? && s.jobs.queue != [] then [s.jobs.queue[0]]
    else if a.Submit? && a.op.Meet? && a.i < |s.subs| && s.subs[a.i].Sending? then [s.subs[a.i].job]
    else []
  }

  /** A step moves at most one goroutine; only Close cancels, and nothing is ever uncancelled or reopened. */
  lemma StepFrame(c: Config, s: State, a: Action)
    requires Step(c, s, a).Some?
    ensures var t := Step(c, s, a).value;
      && |t.subs| == |s.subs|
      && (a.Submit? ==> a.i < |s.subs| && t.subs == s.subs[a.i := t.subs[a.i]] && t.gate.cancelled == s.gate.cancelled)
      && (a.Submit? && s.subs[a.i].Post? ==> !t.subs[a.i].Post?)
      && (!a.Submit? ==> t.subs == s.subs)
      && (s.gate.cancelled ==> t.gate.cancelled)
      && (s.gate.queueClosed ==> t.gate.queueClosed)
  {
  }

  lemma CloserFrame(s: State, k: nat)
    requires k < |s.closers| && CloseStep(s, k).Some?
    ensures var t := CloseStep(s, k).value; t.subs == s.subs && t.jobs == s.jobs
  {
  }

  lemma ReceivedFrame(c: Config, s: State, a: Action)
    requires Step(c, s, a).Some?
    ensures Step(c, s, a).value.jobs.taken == s.jobs.taken + Received(s, a)
  {
  }

  // ---- mutual exclusion and the close protocol ----

  /** mu is held by exactly the goroutine whose program counter says so. */
  ghost predicate LockInv(g: Gate, subs: seq<Sub>, closers: seq<Closer>) {
    && (forall i :: 0 <= i < |subs| ==> (subs[i].HoldsLock() <==> g.mu == Submitter(i)))
    && (forall k :: 0 <= k < |closers| ==> (closers[k].HoldsLock() <==> g.mu == Closing(k)))
    && (g.mu.Submitter? ==> g.mu.i < |subs|)
    && (g.mu.Closing? ==> g.mu.k < |closers|)
  }

  /** closedCh, the context and the queue are closed in this order, each once, by the one goroutine Once admits. */
  ghost predicate OnceInv(g: Gate, closers: seq<Closer>) {
    && (forall k :: 0 <= k < |closers| && closers[k].InBody() ==> g.once == Running(k))
    && (g.once.Fresh? ==> !g.closedCh && !g.cancelled && !g.queueClosed)
    && (g.once.Done? ==> g.closedCh && g.cancelled && g.queueClosed)
    && (g.once.Running? ==>
      g.once.k < |closers|
      && var pc := closers[g.once.k];
         pc.InBody()
         && (g.closedCh <==> pc.PastClosedCh())
         && (g.cancelled <==> pc.PastCancel())
         && (g.queueClosed <==> pc.PastQueue()))
  }

  ghost predicate SafeInv(s: State) {
    && LockInv(s.gate, s.subs, s.closers)
    && OnceInv(s.gate, s.closers)
    && (forall i :: 0 <= i < |s.subs| && s.subs[i].InSend() ==> !s.gate.queueClosed)
    && !s.panicked
  }

  // ---- what happens to jobs ----

  predicate Distinct(s: seq<Job>) {
    forall i, j :: 0 <= i < j < |s| ==> s[i] != s[j]
  }

  /** First in, first out, within the capacity. */
  ghost predicate FlowInv(c: Config, j: Jobs) {
    j.accepted == j.taken + j.queue && |j.queue| <= c.cap
  }

  /** Every job is at one place: pending in one call, accepted once, or rejected. */
  ghost predicate IdInv(m: Jobs, subs: seq<Sub>) {
    && Distinct(m.accepted)
    && (forall x :: x in m.accepted ==> x < m.nextJob && x !in m.rejected)
    && (forall x :: x in m.rejected ==> x < m.nextJob)
    && (forall i :: 0 <= i < |subs| && subs[i].Pending() ==>
          subs[i].job < m.nextJob && subs[i].job !in m.accepted && subs[i].job !in m.rejected)
    && (forall i, j :: 0 <= i < j < |subs| && subs[i].Pending() && subs[j].Pending() ==> subs[i].job != subs[j].job)
    && (forall i :: 0 <= i < |subs| && !subs[i].Pending() && !subs[i].Idle? ==> subs[i].job in m.accepted)
  }

  /** A submitter moves, perhaps taking or freeing mu. */
  lemma MoveSafe(s: State, i: nat, pc: Sub, t: State)
    requires SafeInv(s) && i < |s.subs|
    requires t.subs == s.subs[i := pc] && t.closers == s.closers && !t.panicked
    requires t.gate == s.gate.(mu := t.gate.mu)
    requires || t.gate.mu == s.gate.mu
             || (s.gate.mu.Free? && t.gate.mu == Submitter(i))
             || (s.gate.mu == Submitter(i) && t.gate.mu.Free?)
    requires pc.HoldsLock() <==> t.gate.mu == Submitter(i)
    requires pc.InSend() ==> !s.gate.queueClosed
    ensures SafeInv(t)
  {
    assert forall j :: 0 <= j < |s.subs| && j != i ==> t.subs[j] == s.subs[j];
  }

  /** What the invariant says about one submitter; in particular a send never meets a closed queue. */
  lemma SubFacts(s: State, i: nat)
    requires SafeInv(s) && i < |s.subs|
    ensures s.subs[i].HoldsLock() <==> s.gate.mu == Submitter(i)
    ensures s.subs[i].InSend() ==> !s.gate.queueClosed
    ensures s.gate.queueClosed ==> s.gate.closedCh
    ensures !s.panicked
  {
  }

  /** After Close has returned everything is closed, and nothing has panicked. */
  lemma DoneFacts(s: State)
    requires SafeInv(s) && s.gate.once.Done?
    ensures s.gate.closedCh && s.gate.cancelled && s.gate.queueClosed && !s.panicked
  {
  }

  /** The context is cancelled before the queue closes, and closedCh before both. */
  lemma CloseOrder(s: State)
    requires SafeInv(s)
    ensures s.gate.queueClosed ==> s.gate.cancelled
    ensures s.gate.cancelled ==> s.gate.closedCh
  {
  }

  lemma SendSafe(c: Config, s: State, i: nat, kind: Kind, job: Job, op: Op)
    requires SafeInv(s) && i < |s.subs| && s.subs[i] == Sending(kind, job) && SendStep(c, s, i, kind, job, op).Some?
    ensures SafeInv(SendStep(c, s, i, kind, job, op).value)
  {
    hide SafeInv;
    SubFacts(s, i);
    var t := SendStep(c, s, i, kind, job, op).value;
    MoveSafe(s, i, t.subs[i], t);
  }

  lemma ReleaseSafe(s: State, i: nat, kind: Kind, job: Job, verdict: Verdict)
    requires SafeInv(s) && i < |s.subs| && s.subs[i] == Release(kind, job, verdict)
    ensures SafeInv(ReleaseStep(s, i, kind, job, verdict))
  {
    hide SafeInv;
    SubFacts(s, i);
    MoveSafe(s, i, if verdict.NoRoom? && kind.SubmitWithContext? then Retry(job) else Idle,
             ReleaseStep(s, i, kind, job, verdict));
  }

  lemma SubSafe(c: Config, s: State, i: nat, op: Op)
    requires SafeInv(s) && i < |s.subs| && SubStep(c, s, i, op).Some?
    ensures SafeInv(SubStep(c, s, i, op).value)
  {
    hide SafeInv, SendStep, ReleaseStep;
    SubFacts(s, i);
    var t := SubStep(c, s, i, op).value;
    match s.subs[i]
    case Sending(kind, job) => SendSafe(c, s, i, kind, job, op);
    case Release(kind, job, verdict) => ReleaseSafe(s, i, kind, job, verdict);
    case _ => MoveSafe(s, i, t.subs[i], t);
  }

  lemma CloserLock(s: State, k: nat)
    requires SafeInv(s) && k < |s.closers| && CloseStep(s, k).Some?
    ensures var t := CloseStep(s, k).value; LockInv(t.gate, t.subs, t.closers)
  {
    hide OnceInv;
  }

  lemma CloserOnce(s: State, k: nat)
    requires SafeInv(s) && k < |s.closers| && CloseStep(s, k).Some?
    ensures var t := CloseStep(s, k).value; OnceInv(t.gate, t.closers) && !t.panicked
  {
    hide LockInv;
  }

  lemma CloserSafe(s: State, k: nat)
    requires SafeInv(s) && k < |s.closers| && CloseStep(s, k).Some?
    ensures SafeInv(CloseStep(s, k).value)
  {
    CloserLock(s, k);
    CloserOnce(s, k);
    hide OnceInv;
  }

  lemma SafeStep(c: Config, s: State, a: Action)
    requires SafeInv(s) && Step(c, s, a).Some?
    ensures SafeInv(Step(c, s, a).value)
  {
    match a
    case Take =>
    case Close(k) => CloserSafe(s, k);
    case Submit(i, op) => SubSafe(c, s, i, op);
  }

  /** A submitter moves and the histories stay; a call may return unsent. */
  lemma MoveId(m: Jobs, subs: seq<Sub>, i: nat, pc: Sub, m': Jobs, r: Refusal)
    requires IdInv(m, subs) && i < |subs|
    requires pc.Idle? || (!subs[i].Idle? && pc.Pending() == subs[i].Pending() && pc.job == subs[i].job)
    requires m' == m || (subs[i].Pending() && pc.Idle? && m' == m.(rejected := m.rejected[subs[i].job := r]))
    ensures IdInv(m', subs[i := pc])
  {
  }

  /** A pending job is accepted. */
  lemma AdmitId(m: Jobs, subs: seq<Sub>, i: nat, m': Jobs)
    requires IdInv(m, subs) && i < |subs| && subs[i].Sending?
    requires m'.accepted == m.accepted + [subs[i].job] && (m'.rejected, m'.nextJob) == (m.rejected, m.nextJob)
    ensures IdInv(m', subs[i := Admitted(subs[i].kind, subs[i].job)])
  {
    assert subs[i].Pending();
  }

  /** A new call gets a fresh job. */
  lemma BeginId(m: Jobs, subs: seq<Sub>, i: nat, kind: Kind)
    requires IdInv(m, subs) && i < |subs|
    ensures IdInv(m.(nextJob := m.nextJob + 1), subs[i := FirstCheck(kind, m.nextJob)])
  {
  }

  lemma SubJobs(c: Config, s: State, i: nat, op: Op)
    requires FlowInv(c, s.jobs) && IdInv(s.jobs, s.subs) && i < |s.subs| && SubStep(c, s, i, op).Some?
    ensures var t := SubStep(c, s, i, op).value; FlowInv(c, t.jobs) && IdInv(t.jobs, t.subs)
  {
    hide IdInv;
    var t := SubStep(c, s, i, op).value;
    match s.subs[i]
    case Idle => BeginId(s.jobs, s.subs, i, op.kind);
    case Sending(kind, job) =>
      if op.Go? && s.gate.queueClosed { }
      else if op.Go? && |s.jobs.queue| >= c.cap {
        MoveId(s.jobs, s.subs, i, Release(kind, job, NoRoom), s.jobs, Refusal(kind, NoRoom));
      }
      else { AdmitId(s.jobs, s.subs, i, t.jobs); }
    case _ =>
      var job := s.subs[i].job;
      var r := if job in t.jobs.rejected then t.jobs.rejected[job] else Refusal(TrySubmit, NoRoom);
      MoveId(s.jobs, s.subs, i, t.subs[i], t.jobs, r);
  }

  lemma JobStep(c: Config, s: State, a: Action)
    requires FlowInv(c, s.jobs) && IdInv(s.jobs, s.subs) && Step(c, s, a).Some?
    ensures var t := Step(c, s, a).value; FlowInv(c, t.jobs) && IdInv(t.jobs, t.subs)
  {
    hide SubStep;
    match a
    case Take =>
    case Close(k) =>
    case Submit(i, op) => SubJobs(c, s, i, op);
  }

  // ---- what calls return ----

  /**
    ErrClosed only once closedCh is closed, the context's error only from SubmitWithContext, no room
    only from TrySubmit.
   */
  predicate Justified(g: Gate, r: Refusal) {
    match r.verdict
    case Accepted => false
    case ErrClosed => g.closedCh
    case NoRoom => r.kind.TrySubmit?
    case CtxErr => r.kind.SubmitWithContext?
  }

  predicate AboutToReturn(g: Gate, pc: Sub) {
    pc.Release? ==> !pc.verdict.CtxErr? && (pc.verdict.ErrClosed? ==> g.closedCh)
  }

  ghost predicate RefusalInv(g: Gate, m: Jobs, subs: seq<Sub>) {
    && (forall x :: x in m.rejected ==> Justified(g, m.rejected[x]))
    && (forall i :: 0 <= i < |subs| ==> AboutToReturn(g, subs[i]))
  }

  lemma SubRefusal(c: Config, s: State, i: nat, op: Op)
    requires RefusalInv(s.gate, s.jobs, s.subs) && i < |s.subs| && SubStep(c, s, i, op).Some?
    ensures var t := SubStep(c, s, i, op).value; RefusalInv(t.gate, t.jobs, t.subs)
  {
    assert AboutToReturn(s.gate, s.subs[i]);
  }

  lemma RefusalStep(c: Config, s: State, a: Action)
    requires RefusalInv(s.gate, s.jobs, s.subs) && Step(c, s, a).Some?
    ensures var t := Step(c, s, a).value; RefusalInv(t.gate, t.jobs, t.subs)
  {
    hide SubStep;
    match a
    case Take =>
    case Close(k) => assert s.gate.closedCh ==> Step(c, s, a).value.gate.closedCh;
    case Submit(i, op) => SubRefusal(c, s, i, op);
  }

  // ---- runs ----

  ghost predicate Inv(c: Config, s: State) {
    SafeInv(s) && FlowInv(c, s.jobs) && IdInv(s.jobs, s.subs) && RefusalInv(s.gate, s.jobs, s.subs)
  }

  lemma InitInv(c: Config, subs: nat, closers: nat)
    ensures Inv(c, Init(subs, closers))
  {
  }

  lemma InvStep(c: Config, s: State, a: Action)
    requires Inv(c, s) && Step(c, s, a).Some?
    ensures Inv(c, Step(c, s, a).value)
  {
    hide SafeInv, FlowInv, IdInv, RefusalInv, Step;
    SafeStep(c, s, a);
    JobStep(c, s, a);
    RefusalStep(c, s, a);
  }

  /** Workers receive accepted jobs in order, each at most once, and never one that was rejected. */
  lemma JobFacts(c: Config, s: State)
    requires Inv(c, s)
    ensures s.jobs.accepted == s.jobs.taken + s.jobs.queue && |s.jobs.queue| <= c.cap
    ensures Distinct(s.jobs.taken)
    ensures forall x :: x in s.jobs.rejected ==>
      x !in s.jobs.taken && x !in s.jobs.queue && Justified(s.gate, s.jobs.rejected[x])
    ensures !s.panicked
  {
    var m := s.jobs;
    forall i, j | 0 <= i < j < |m.taken| ensures m.taken[i] != m.taken[j] {
      assert m.accepted[i] == m.taken[i] && m.accepted[j] == m.taken[j];
    }
  }

  /** Once Close has returned it stays closed, nothing is sent, and a call past its send can only return. */
  lemma ClosedStep(c: Config, s: State, a: Action)
    requires Inv(c, s) && s.gate.once.Done? && Step(c, s, a).Some?
    ensures var t := Step(c, s, a).value;
      && t.gate.once.Done?
      && |t.subs| == |s.subs|
      && t.jobs.accepted == s.jobs.accepted && (!a.Take? ==> t.jobs.queue == s.jobs.queue)
      && (!a.Submit? ==> t.subs == s.subs)
      && (a.Submit? ==> a.i < |s.subs| && t.subs == s.subs[a.i := t.subs[a.i]] && !t.subs[a.i].Post?)
  {
    assert SafeInv(s);
    hide Inv, FlowInv, IdInv;
    if a.Submit? {
      SubFacts(s, a.i);
    }
    hide LockInv;
  }

  /** Where every job is: in the queue, being run by one worker, run, or returned unsent for a reason that holds. */
  ghost predicate Conserved(c: Config, s: State, inHand: multiset<Job>, finished: multiset<Job>) {
    var m := s.jobs;
    && m.accepted == m.taken + m.queue
    && |m.queue| <= c.cap
    && multiset(m.taken) == finished + inHand
    && Distinct(m.taken)
    && (forall x :: x in m.rejected ==> x !in m.taken && x !in m.queue && Justified(s.gate, m.rejected[x]))
  }

  // ---- one whole Close ----

  /** Runs in which only goroutines inside Close move. */
  function CloserSteps(c: Config): (State, Action) -> Option<State> {
    (s: State, a: Action) => if a.Close? then Step(c, s, a) else None
  }

  const OPEN := Gate(false, false, false, Free, Fresh)
  const SHUT := Gate(true, true, true, Free, Done)

  lemma CloseRest(c: Config, s0: State, s: State)
    requires Reaches(CloserSteps(c), s0, s) && !s.panicked && |s.closers| > 0 && s.closers[0].AtLock?
    requires s.gate == Gate(true, true, false, Free, Running(0))
    ensures Reaches(CloserSteps(c), s0, s.(closers := s.closers[0 := Outside], gate := SHUT))
  {
    var t := Do(CloserSteps(c), s0, s, Close(0));
    t := Do(CloserSteps(c), s0, t, Close(0));
    t := Do(CloserSteps(c), s0, t, Close(0));
    t := Do(CloserSteps(c), s0, t, Close(0));
    assert t.closers == s.closers[0 := Outside];
  }

  /** Closer 0 runs Close of an open intake from start to end. */
  lemma CloseAll(c: Config, s: State)
    requires !s.panicked && |s.closers| > 0 && s.closers[0].Outside? && s.gate == OPEN
    ensures Reaches(CloserSteps(c), s, s.(gate := SHUT))
  {
    ReachesRefl(CloserSteps(c), s);
    var t := Do(CloserSteps(c), s, s, Close(0));
    t := Do(CloserSteps(c), s, t, Close(0));
    t := Do(CloserSteps(c), s, t, Close(0));
    t := Do(CloserSteps(c), s, t, Close(0));
    assert t == s.(closers := s.closers[0 := AtLock], gate := Gate(true, true, false, Free, Running(0)));
    CloseRest(c, s, t);
    assert s.closers[0 := AtLock][0 := Outside] == s.closers;
  }

  // ---- all its runs ----

  function Steps(c: Config): (State, Action) -> Option<State> {
    (s, a) => Step(c, s, a)
  }

  lemma NobodySubmits(c: Config, closers: nat, s: State)
    requires Reaches(Steps(c), Init(0, closers), s)
    ensures s.jobs.accepted == [] && s.jobs.queue == []
  {
    var inv := (x: State) => x.subs == [] && x.jobs.accepted == [] && x.jobs.queue == [];
    forall x, a | inv(x) && Steps(c)(x, a).Some?
      ensures inv(Steps(c)(x, a).value)
    {
      if a.Close? { CloserFrame(x, a.k); }
    }
    ReachesInductive(Steps(c), inv, Init(0, closers), s);
  }
}
