/** Whole calls of the fixed pool, when nobody interferes, and the run of a job. */
module WorkerPoolCalls {
  import opened Runs
  import Intake
  import IntakeCalls
  import opened WorkerPool

  function Sub(i: nat, op: Intake.Op): Action { Admission(Intake.Submit(i, op)) }

  /** A call begins, and gets mu and past both checks. */
  lemma ToSend(c: Config, s0: State, s: State, i: nat, kind: Intake.Kind) returns (t: State)
    requires Reaches(Steps(c), s0, s) && !s.intake.panicked && !s.intake.gate.closedCh && s.intake.gate.mu.Free?
    requires i < |s.intake.subs| && s.intake.subs[i].Idle?
    ensures Reaches(Steps(c), s0, t)
    ensures t == s.(intake := s.intake.(subs := s.intake.subs[i := Intake.Sending(kind, s.intake.jobs.nextJob)],
                                        gate := s.intake.gate.(mu := Intake.Submitter(i)),
                                        jobs := s.intake.jobs.(nextJob := s.intake.jobs.nextJob + 1)))
  {
    t := Do(Steps(c), s0, s, Sub(i, Intake.Begin(kind)));
    t := Do(Steps(c), s0, t, Sub(i, Intake.Go));
    t := Do(Steps(c), s0, t, Sub(i, Intake.Go));
    t := Do(Steps(c), s0, t, Sub(i, Intake.Go));
    assert t.intake.subs == s.intake.subs[i := Intake.Sending(kind, s.intake.jobs.nextJob)];
  }

  /** The job is sent; the call unlocks and returns. */
  lemma Returns(c: Config, s0: State, s: State, i: nat, kind: Intake.Kind, job: Intake.Job) returns (t: State)
    requires Reaches(Steps(c), s0, s) && !s.intake.panicked && i < |s.intake.subs|
    requires s.intake.subs[i] == Intake.Admitted(kind, job) && s.intake.gate.mu == Intake.Submitter(i)
    ensures Reaches(Steps(c), s0, t)
    ensures t == s.(intake := s.intake.(subs := s.intake.subs[i := Intake.Idle],
                                        gate := s.intake.gate.(mu := Intake.Free)))
  {
    t := Do(Steps(c), s0, s, Sub(i, Intake.Go));
    t := Do(Steps(c), s0, t, Sub(i, Intake.Go));
    assert t.intake.subs == s.intake.subs[i := Intake.Idle];
  }

  /** A whole call of either kind with room in the queue: its job is queued. Nothing else changes. */
  lemma WholeCall(c: Config, s0: State, s: State, i: nat, kind: Intake.Kind) returns (t: State)
    requires Reaches(Steps(c), s0, s) && !s.intake.panicked && s.intake.gate == Intake.OPEN
    requires i < |s.intake.subs| && s.intake.subs[i].Idle? && |s.intake.jobs.queue| < c.cap
    ensures Reaches(Steps(c), s0, t)
    ensures var m := s.intake.jobs; t == s.(intake := IntakeCalls.Accepts(s.intake, m.(queue := m.queue + [m.nextJob])))
  {
    t := ToSend(c, s0, s, i, kind);
    t := Do(Steps(c), s0, t, Sub(i, Intake.Go));
    t := Returns(c, s0, t, i, kind, s.intake.jobs.nextJob);
    hide Step;
    assert t.intake.subs == s.intake.subs;
  }

  /** The head of the queue is received by a worker in its select, and run. */
  lemma WholeRun(c: Config, s0: State, s: State, j: nat) returns (t: State)
    requires Reaches(Steps(c), s0, s) && !s.intake.panicked && j < |s.workers| && s.workers[j].Select?
    requires s.intake.jobs.queue != []
    ensures Reaches(Steps(c), s0, t)
    ensures var m := s.intake.jobs;
      t == State(s.intake.(jobs := m.(queue := m.queue[1..], taken := m.taken + [m.queue[0]])), s.workers,
                 s.finished + multiset{m.queue[0]})
  {
    t := Do(Steps(c), s0, s, Work(j, TakeJob));
    t := Do(Steps(c), s0, t, Work(j, EndJob));
    assert t.workers == s.workers;
  }

  /** Without a buffer the job of a call goes to a worker in its select, which runs it. */
  lemma UnbufferedCall(c: Config, s0: State, s: State, i: nat, kind: Intake.Kind, j: nat) returns (t: State)
    requires Reaches(Steps(c), s0, s) && !s.intake.panicked && s.intake.gate == Intake.OPEN
    requires i < |s.intake.subs| && s.intake.subs[i].Idle? && c.cap == 0 && s.intake.jobs.queue == []
    requires j < |s.workers| && s.workers[j].Select?
    ensures Reaches(Steps(c), s0, t)
    ensures var m := s.intake.jobs;
      t == State(IntakeCalls.Accepts(s.intake, m.(taken := m.taken + [m.nextJob])), s.workers,
                 s.finished + multiset{m.nextJob})
  {
    t := ToSend(c, s0, s, i, kind);
    t := Do(Steps(c), s0, t, Meet(i, j));
    t := Do(Steps(c), s0, t, Work(j, EndJob));
    t := Returns(c, s0, t, i, kind, s.intake.jobs.nextJob);
    hide Step;
    assert t.intake.subs == s.intake.subs && t.workers == s.workers;
  }

  /** A worker in its select leaves once the context is cancelled, or the queue closed and drained. */
  lemma WholeExit(c: Config, s0: State, s: State, j: nat, op: WorkerOp) returns (t: State)
    requires Reaches(Steps(c), s0, s) && !s.intake.panicked && j < |s.workers| && s.workers[j].Select?
    requires || (op.SeeCancel? && s.intake.gate.cancelled)
             || (op.SeeClosed? && s.intake.gate.queueClosed && s.intake.jobs.queue == [])
    ensures Reaches(Steps(c), s0, t) && t == s.(workers := s.workers[j := Gone])
  {
    t := Do(Steps(c), s0, s, Work(j, op));
  }
}
