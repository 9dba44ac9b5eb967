/**
  Whole calls and whole reaps of the dynamic pool, when nobody interferes: what
  a call of either kind leaves behind, and where a worker goes whose idle timer
  has fired.
 */
module DynPoolCalls {
  import opened Options
  import opened Runs
  import Intake
  import IntakeCalls
  import opened DynPool

  function Sub(i: nat, op: Intake.Op): Action { Admission(Intake.Submit(i, op)) }

  /** A submitter would get through to its send. */
  ghost predicate Admitting(x: Intake.State) {
    !x.panicked && !x.gate.closedCh && !x.gate.queueClosed && x.gate.mu.Free?
  }

  /** A call begins, and gets mu and past both checks. */
  lemma ToSend(c: Config, s0: State, s: State, i: nat, kind: Intake.Kind) returns (t: State)
    requires Reaches(Steps(c), s0, s) && Admitting(s.intake) && i < |s.scale| == |s.intake.subs|
    requires s.intake.subs[i].Idle?
    ensures Reaches(Steps(c), s0, t)
    ensures t == s.(intake := s.intake.(subs := s.intake.subs[i := Intake.Sending(kind, s.intake.jobs.nextJob)],
                                        gate := s.intake.gate.(mu := Intake.Submitter(i)),
                                        jobs := s.intake.jobs.(nextJob := s.intake.jobs.nextJob + 1)))
  {
    t := Do(Steps(c), s0, s, Sub(i, Intake.Begin(kind)));
    t := Do(Steps(c), s0, t, Sub(i, Intake.Go));
    t := Do(Steps(c), s0, t, Sub(i, Intake.Go));
    t := Do(Steps(c), s0, t, Sub(i, Intake.Go));
    assert t.intake.subs == s.intake.subs[i := Intake.Sending(kind, s.intake.jobs.nextJob)];
  }

  /** mu from here on: a TrySubmit keeps it. */
  function AfterSend(g: Intake.Gate, i: nat, kind: Intake.Kind): Intake.Gate {
    g.(mu := if kind.TrySubmit? then Intake.Submitter(i) else Intake.Free)
  }

  /** The job goes into the queue, or to a worker; a SubmitWithContext unlocks. */
  lemma Sends(c: Config, s0: State, s: State, i: nat, kind: Intake.Kind, job: Intake.Job) returns (t: State)
    requires Reaches(Steps(c), s0, s) && !s.intake.panicked && i < |s.scale| == |s.intake.subs|
    requires s.intake.subs[i] == Intake.Sending(kind, job) && s.intake.gate.mu == Intake.Submitter(i)
    requires !s.intake.gate.queueClosed && |s.intake.jobs.queue| < c.cap
    ensures Reaches(Steps(c), s0, t)
    ensures t == s.(scale := s.scale[i := AtLoad],
                    intake := s.intake.(subs := s.intake.subs[i := Intake.Post(kind, job)],
                                        gate := AfterSend(s.intake.gate, i, kind),
                                        jobs := s.intake.jobs.(queue := s.intake.jobs.queue + [job],
                                                               accepted := s.intake.jobs.accepted + [job])))
  {
    t := Do(Steps(c), s0, s, Sub(i, Intake.Go));
    if kind.SubmitWithContext? { t := Do(Steps(c), s0, t, Sub(i, Intake.Go)); }
    assert t.intake.subs == s.intake.subs[i := Intake.Post(kind, job)];
  }

  /** A SubmitWithContext puts its job into the queue, and enters maybeScaleUp. */
  lemma QueuesJob(c: Config, s0: State, s: State, i: nat) returns (t: State)
    requires Reaches(Steps(c), s0, s) && Admitting(s.intake) && i < |s.scale| == |s.intake.subs|
    requires s.intake.subs[i].Idle? && |s.intake.jobs.queue| < c.cap
    ensures Reaches(Steps(c), s0, t)
    ensures var m := s.intake.jobs;
      t == s.(scale := s.scale[i := AtLoad],
              intake := s.intake.(subs := s.intake.subs[i := Intake.Post(Intake.SubmitWithContext, m.nextJob)],
                                  jobs := m.(queue := m.queue + [m.nextJob], accepted := m.accepted + [m.nextJob],
                                             nextJob := m.nextJob + 1)))
  {
    t := ToSend(c, s0, s, i, Intake.SubmitWithContext);
    t := Sends(c, s0, t, i, Intake.SubmitWithContext, s.intake.jobs.nextJob);
  }

  lemma Meets(c: Config, s0: State, s: State, i: nat, kind: Intake.Kind, job: Intake.Job, j: nat) returns (t: State)
    requires Reaches(Steps(c), s0, s) && !s.intake.panicked && i < |s.scale| == |s.intake.subs|
    requires s.intake.subs[i] == Intake.Sending(kind, job) && s.intake.gate.mu == Intake.Submitter(i)
    requires !s.intake.gate.queueClosed && c.cap == 0 && s.intake.jobs.queue == []
    requires j < |s.pool.workers| && s.pool.workers[j].Select?
    ensures Reaches(Steps(c), s0, t)
    ensures t == s.(scale := s.scale[i := AtLoad], pool := s.pool.(workers := s.pool.workers[j := Busy(job)]),
                    intake := s.intake.(subs := s.intake.subs[i := Intake.Post(kind, job)],
                                        gate := AfterSend(s.intake.gate, i, kind),
                                        jobs := s.intake.jobs.(taken := s.intake.jobs.taken + [job],
                                                               accepted := s.intake.jobs.accepted + [job])))
  {
    t := Do(Steps(c), s0, s, Meet(i, j));
    if kind.SubmitWithContext? { t := Do(Steps(c), s0, t, Sub(i, Intake.Go)); }
    assert t.intake.subs == s.intake.subs[i := Intake.Post(kind, job)];
  }

  /** The call returns. */
  lemma Returns(c: Config, s0: State, s: State, i: nat, kind: Intake.Kind, job: Intake.Job) returns (t: State)
    requires Reaches(Steps(c), s0, s) && !s.intake.panicked && i < |s.scale| == |s.intake.subs|
    requires s.intake.subs[i] == Intake.Post(kind, job) && s.scale[i].AtEnd?
    requires s.intake.gate == AfterSend(s.intake.gate, i, kind)
    ensures Reaches(Steps(c), s0, t)
    ensures t == s.(scale := s.scale[i := Off], intake := s.intake.(subs := s.intake.subs[i := Intake.Idle],
                                                                    gate := s.intake.gate.(mu := Intake.Free)))
  {
    t := Do(Steps(c), s0, s, Sub(i, Intake.Go));
    if kind.TrySubmit? { t := Do(Steps(c), s0, t, Sub(i, Intake.Go)); }
    assert t.intake.subs == s.intake.subs[i := Intake.Idle];
  }

  /** The pool after maybeScaleUp: with a backlog and room for a worker there is one more. */
  function Scaled(c: Config, p: Pool, backlog: bool): Pool {
    if p.counter < c.max && backlog then Pool(p.counter + 1, p.wg + 1, p.workers + [Select(false)]) else p
  }

  lemma Scales(c: Config, s0: State, s: State, i: nat) returns (t: State)
    requires Reaches(Steps(c), s0, s) && !s.intake.panicked && i < |s.scale| && s.scale[i].AtLoad?
    ensures Reaches(Steps(c), s0, t)
    ensures t == s.(scale := s.scale[i := AtEnd], pool := Scaled(c, s.pool, s.intake.jobs.queue != []))
  {
    t := Do(Steps(c), s0, s, ScaleGo(i));
    if s.pool.counter < c.max {
      t := Do(Steps(c), s0, t, ScaleGo(i));
      if s.intake.jobs.queue != [] {
        t := Do(Steps(c), s0, t, ScaleGo(i));
        t := Do(Steps(c), s0, t, ScaleGo(i));
        t := Do(Steps(c), s0, t, ScaleGo(i));
      }
    }
    assert t.scale == s.scale[i := AtEnd];
  }

  /**
    A whole call of either kind with room in the queue: its job is queued, and one worker is started if the counter
    is below the maximum. Nothing else changes.
   */
  lemma WholeCall(c: Config, s0: State, s: State, i: nat, kind: Intake.Kind) returns (t: State)
    requires Reaches(Steps(c), s0, s) && Admitting(s.intake) && i < |s.scale| == |s.intake.subs|
    requires s.intake.subs[i].Idle? && s.scale[i].Off? && |s.intake.jobs.queue| < c.cap
    ensures Reaches(Steps(c), s0, t)
    ensures var m := s.intake.jobs;
      t == s.(pool := Scaled(c, s.pool, true), intake := IntakeCalls.Accepts(s.intake, m.(queue := m.queue + [m.nextJob])))
  {
    var job := s.intake.jobs.nextJob;
    t := ToSend(c, s0, s, i, kind);
    t := Sends(c, s0, t, i, kind, job);
    hide Step;
    t := Scales(c, s0, t, i);
    t := Returns(c, s0, t, i, kind, job);
    assert t.scale == s.scale && t.intake.subs == s.intake.subs && t.intake.gate == s.intake.gate;
  }

  /** Without a buffer the job goes to a worker in its select, which runs it; no worker is started. */
  lemma UnbufferedCall(c: Config, s0: State, s: State, i: nat, kind: Intake.Kind, j: nat) returns (t: State)
    requires Reaches(Steps(c), s0, s) && Admitting(s.intake) && i < |s.scale| == |s.intake.subs|
    requires s.intake.subs[i].Idle? && s.scale[i].Off? && c.cap == 0 && s.intake.jobs.queue == []
    requires j < |s.pool.workers| && s.pool.workers[j].Select?
    ensures Reaches(Steps(c), s0, t)
    ensures var m := s.intake.jobs;
      t == s.(pool := s.pool.(workers := s.pool.workers[j := Select(false)]), finished := s.finished + multiset{m.nextJob},
              intake := IntakeCalls.Accepts(s.intake, m.(taken := m.taken + [m.nextJob])))
  {
    var job := s.intake.jobs.nextJob;
    t := ToSend(c, s0, s, i, kind);
    t := Meets(c, s0, t, i, kind, job, j);
    t := Do(Steps(c), s0, t, Work(j, Go));
    hide Step;
    t := Scales(c, s0, t, i);
    t := Returns(c, s0, t, i, kind, job);
    assert t.scale == s.scale && t.intake.subs == s.intake.subs && t.intake.gate == s.intake.gate;
    assert t.pool.workers == s.pool.workers[j := Select(false)];
  }

  // ---- a worker whose idle timer has fired ----

  predicate Reaping(c: Config, w: Worker) { w == Select(true) || w.ReapLoad? || (w.ReapCas? && w.cur > c.min) }

  function ReapRank(counter: int, w: Worker): nat {
    match w case Select(_) => 3 case ReapLoad => 2 case ReapCas(cur) => if cur == counter then 1 else 3 case _ => 0
  }

  /** The worker has left the counter and the WaitGroup, or waits again because the counter is not above the minimum. */
  function Reaped(c: Config, p: Pool, j: nat): Pool
    requires j < |p.workers|
  {
    if p.counter > c.min then Pool(p.counter - 1, p.wg - 1, p.workers[j := Gone])
    else p.(workers := p.workers[j := Select(false)])
  }

  /** It goes there by its own steps, with no other timer: where its compare-and-swap fails it loads again. */
  lemma {:induction false} WholeReap(c: Config, s: State, j: nat) returns (run: seq<Action>)
    requires !s.intake.panicked && j < |s.pool.workers| && Reaping(c, s.pool.workers[j])
    ensures Exec(Steps(c), s, run) == Some(s.(pool := Reaped(c, s.pool, j)))
    ensures forall a :: a in run ==> a == Work(j, Go) || a == Work(j, Fire)
    decreases ReapRank(s.pool.counter, s.pool.workers[j])
  {
    hide AdmissionStep, MeetStep, ScaleStep, TakeStep;
    var a := Work(j, if s.pool.workers[j].Select? then Fire else Go);
    var t := Step(c, s, a).value;
    var rest: seq<Action>;
    if t.pool.workers[j].Exiting? {
      rest := [Work(j, Go)];
      var u := Step(c, t, Work(j, Go)).value;
      assert u.pool.workers == s.pool.workers[j := Gone];
      assert rest[1..] == [] && Exec(Steps(c), u, rest[1..]) == Some(u);
    } else if t.pool.workers[j].Select? {
      rest := [];
    } else {
      rest := WholeReap(c, t, j);
      assert t.pool.workers[j := Gone] == s.pool.workers[j := Gone];
      assert t.pool.workers[j := Select(false)] == s.pool.workers[j := Select(false)];
    }
    run := [a] + rest;
    assert run[1..] == rest;
  }

  /**
    A worker in its select leaves once the context is cancelled, or the queue closed and drained: it takes itself
    off the counter and the WaitGroup, and is gone.
   */
  lemma WholeExit(c: Config, s0: State, s: State, j: nat, op: WorkerOp) returns (t: State)
    requires Reaches(Steps(c), s0, s) && !s.intake.panicked && j < |s.pool.workers| && s.pool.workers[j].Select?
    requires || (op.SeeCancel? && s.intake.gate.cancelled)
             || (op.SeeClosed? && s.intake.gate.queueClosed && s.intake.jobs.queue == [])
    ensures Reaches(Steps(c), s0, t)
    ensures t == s.(pool := Pool(s.pool.counter - 1, s.pool.wg - 1, s.pool.workers[j := Gone]))
  {
    t := Do(Steps(c), s0, s, Work(j, op));
    t := Do(Steps(c), s0, t, Work(j, Go));
    t := Do(Steps(c), s0, t, Work(j, Go));
    assert t.pool.workers == s.pool.workers[j := Gone];
  }

  /** A worker in its select receives the head of the queue, runs it, and is back with its timer re-armed. */
  lemma WholeRun(c: Config, s0: State, s: State, j: nat) returns (t: State)
    requires Reaches(Steps(c), s0, s) && !s.intake.panicked && j < |s.pool.workers| && s.pool.workers[j].Select?
    requires s.intake.jobs.queue != []
    ensures Reaches(Steps(c), s0, t)
    ensures var m := s.intake.jobs;
      t == s.(intake := s.intake.(jobs := m.(queue := m.queue[1..], taken := m.taken + [m.queue[0]])),
              pool := s.pool.(workers := s.pool.workers[j := Select(false)]),
              finished := s.finished + multiset{m.queue[0]})
  {
    t := Do(Steps(c), s0, s, Work(j, TakeJob));
    t := Do(Steps(c), s0, t, Work(j, Go));
    assert t.pool.workers == s.pool.workers[j := Select(false)];
  }
}
