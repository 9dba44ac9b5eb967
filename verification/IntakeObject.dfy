/**
  The intake of both pools as the program keeps it: fields updated in place.
  Each method is the next atomic operation of one goroutine; which goroutine
  moves next is the choice of the caller. done is false where the goroutine is
  blocked, and then nothing changes.
 */
module IntakeObject {
  import opened Options
  import opened Intake

  /** A goroutine about to close closedCh or the queue is the first to do so. */
  lemma CloserFacts(s: State, k: nat)
    requires SafeInv(s) && k < |s.closers|
    ensures s.closers[k].AtClosedCh? ==> !s.gate.closedCh
    ensures s.closers[k].AtQueue? ==> !s.gate.queueClosed
  {
    hide LockInv;
  }

  class Front {
    const cap: nat
    const wakesInRetry: bool
    var queue: seq<Job>
    var closedCh: bool
    var cancelled: bool
    var queueClosed: bool
    var mu: Holder
    var closeOnce: Once
    var nextJob: Job
    var subs: seq<Sub>
    var closers: seq<Closer>
    ghost var accepted: seq<Job>
    ghost var taken: seq<Job>
    ghost var rejected: map<Job, Refusal>

    ghost function Settings(): Config { Config(cap, wakesInRetry) }

    ghost function View(): State
      reads this
    {
      State(Gate(closedCh, cancelled, queueClosed, mu, closeOnce), Jobs(queue, accepted, taken, rejected, nextJob),
            subs, closers, false)
    }

    ghost predicate Valid()
      reads this
    {
      Inv(Settings(), View())
    }

    constructor (c: Config, submitters: nat, closing: nat)
      ensures Valid() && View() == Init(submitters, closing) && Settings() == c
    {
      cap, wakesInRetry := c.cap, c.wakesInRetry;
      queue, closedCh, cancelled, queueClosed, mu, closeOnce := [], false, false, false, Free, Fresh;
      nextJob, subs, closers := 0, seq(submitters, i => Idle), seq(closing, k => Outside);
      accepted, taken, rejected := [], [], map[];
      new;
      InitInv(c, submitters, closing);
    }

    /** The outcome of one operation: the step the action makes from s, or none and no change. */
    ghost predicate Made(s: State, a: Action, done: bool)
      reads this
    {
      match Step(Settings(), s, a)
      case None => !done && View() == s
      case Some(t) => done && View() == t
    }

    /** An unbuffered send meets a receiver. */
    method HandOff(i: nat) returns (done: bool)
      requires i < |subs| && subs[i].Sending? && !queueClosed
      modifies this
      ensures Made(old(View()), Action.Submit(i, Meet), done)
    {
      var kind, job := subs[i].kind, subs[i].job;
      done := cap == 0 && queue == [];
      if done {
        accepted, taken, subs := accepted + [job], taken + [job], subs[i := Admitted(kind, job)];
      }
    }

    /** The call begins, checks closedCh for the first time, or waits for another round; mu is not held. */
    method Unlocked(i: nat, op: Op) returns (done: bool)
      requires i < |subs| && (subs[i].Idle? || subs[i].FirstCheck? || subs[i].Retry?)
      modifies this
      ensures Made(old(View()), Action.Submit(i, op), done)
    {
      done := true;
      var pc := subs[i];
      if pc.Idle? {
        if op.Begin? {
          subs, nextJob := subs[i := FirstCheck(op.kind, nextJob)], nextJob + 1;
          return;
        }
      } else {
        var quits := if pc.Retry? then wakesInRetry && (op.CtxDone? || (op.SeeClosed? && closedCh))
                     else (op.Go? && closedCh) || (op.CtxDone? && pc.kind.SubmitWithContext?);
        if quits {
          var kind := if pc.Retry? then Kind.SubmitWithContext else pc.kind;
          subs, rejected := subs[i := Idle], rejected[pc.job := Refusal(kind, if op.CtxDone? then CtxErr else ErrClosed)];
          return;
        }
        if op.Go? {
          subs := subs[i := if pc.Retry? then FirstCheck(Kind.SubmitWithContext, pc.job) else WantLock(pc.kind, pc.job)];
          return;
        }
      }
      done := false;
    }

    /** From mu.Lock to mu.Unlock, and the return of a SubmitWithContext. */
    method Locked(i: nat, op: Op) returns (done: bool)
      requires i < |subs| && !subs[i].Idle? && !subs[i].FirstCheck? && !subs[i].Retry?
      requires subs[i].Sending? ==> !queueClosed && !op.Meet?
      modifies this
      ensures Made(old(View()), Action.Submit(i, op), done)
    {
      done := op.Go? && (subs[i].WantLock? ==> mu.Free?);
      if !done {
        return;
      }
      match subs[i]
      case WantLock(kind, job) =>
        mu, subs := Submitter(i), subs[i := Recheck(kind, job)];
      case Recheck(kind, job) =>
        subs := subs[i := if closedCh then Release(kind, job, ErrClosed) else Sending(kind, job)];
      case Sending(kind, job) =>
        if |queue| < cap {
          queue, accepted, subs := queue + [job], accepted + [job], subs[i := Admitted(kind, job)];
        } else {
          subs := subs[i := Release(kind, job, NoRoom)];
        }
      case Sent(job) =>
        mu, subs := Free, subs[i := Post(Kind.SubmitWithContext, job)];
      case Post(kind, job) =>
        subs := subs[i := if kind.TrySubmit? then Release(kind, job, Accepted) else Idle];
      case Release(kind, job, verdict) =>
        mu, subs := Free, subs[i := Idle];
        if verdict.NoRoom? && kind.SubmitWithContext? {
          subs := subs[i := Retry(job)];
        } else if !verdict.Accepted? {
          rejected := rejected[job := Refusal(kind, verdict)];
        }
    }

    /** The next operation of TrySubmit or SubmitWithContext in goroutine i. */
    method Submit(i: nat, op: Op) returns (done: bool)
      requires Valid() && i < |subs|
      modifies this
      ensures Valid() && Made(old(View()), Action.Submit(i, op), done)
    {
      hide SafeInv, FlowInv, IdInv, RefusalInv;
      SubFacts(View(), i);
      if subs[i].Sending? && op.Meet? {
        done := HandOff(i);
      } else if subs[i].Idle? || subs[i].Retry? || subs[i].FirstCheck? {
        done := Unlocked(i, op);
      } else {
        done := Locked(i, op);
      }
      if done {
        hide Inv, Step;
        InvStep(Settings(), old(View()), Action.Submit(i, op));
      }
    }

    /** A TrySubmit that has sent goes on to its unlock (in the dynamic pool, after maybeScaleUp). */
    method LeaveSent(i: nat)
      requires Valid() && i < |subs| && subs[i].Post? && subs[i].kind.TrySubmit?
      modifies this`subs
      ensures Valid() && subs == old(subs)[i := Release(Kind.TrySubmit, old(subs[i].job), Accepted)]
    {
      hide Inv;
      subs := subs[i := Release(Kind.TrySubmit, subs[i].job, Accepted)];
      assert Step(Settings(), old(View()), Action.Submit(i, Go)) == Some(View());
      InvStep(Settings(), old(View()), Action.Submit(i, Go));
    }

    method Return(i: nat)
      requires Valid() && i < |subs| && subs[i].Release? && subs[i].kind.TrySubmit?
      modifies this`subs, this`mu, this`rejected
      ensures Valid() && mu.Free? && subs == old(subs)[i := Idle]
      ensures rejected == if old(subs[i].verdict).Accepted? then old(rejected)
                          else old(rejected)[old(subs[i].job) := Refusal(Kind.TrySubmit, old(subs[i].verdict))]
    {
      SubFacts(View(), i);
      var pc := subs[i];
      mu, subs := Free, subs[i := Idle];
      if !pc.verdict.Accepted? {
        rejected := rejected[pc.job := Refusal(pc.kind, pc.verdict)];
      }
      hide Inv;
      assert Step(Settings(), old(View()), Action.Submit(i, Go)) == Some(View());
      InvStep(Settings(), old(View()), Action.Submit(i, Go));
    }

    /** The rest of an uninterrupted TrySubmit that has re-checked closedCh. */
    method SendAndReturn(i: nat) returns (accept: bool)
      requires Valid() && i < |subs| && subs[i].Sending? && subs[i].kind.TrySubmit?
      modifies this
      ensures Valid() && mu.Free? && subs == old(subs)[i := Idle] && nextJob == old(nextJob)
      ensures accept == (|old(queue)| < cap)
      ensures queue == if accept then old(queue) + [old(subs[i].job)] else old(queue)
      ensures accepted == if accept then old(accepted) + [old(subs[i].job)] else old(accepted)
      ensures rejected == if accept then old(rejected)
                          else old(rejected)[old(subs[i].job) := Refusal(Kind.TrySubmit, NoRoom)]
      ensures unchanged(this`closedCh, this`cancelled, this`queueClosed, this`closeOnce, this`closers, this`taken)
    {
      SubFacts(View(), i);
      hide Inv;
      accept := |queue| < cap;
      var job := subs[i].job;
      var done := Submit(i, Go);
      assert subs[i] == if accept then Post(Kind.TrySubmit, job) else Release(Kind.TrySubmit, job, NoRoom);
      if accept {
        LeaveSent(i);
      }
      Return(i);
    }

    /** TrySubmit from start to end, when nobody interferes: what it returns, and the whole effect it has. */
    method TrySubmit(i: nat) returns (verdict: Verdict)
      requires Valid() && i < |subs| && subs[i].Idle? && mu.Free?
      modifies this
      ensures Valid() && mu.Free? && subs == old(subs) && nextJob == old(nextJob) + 1
      ensures verdict == if old(closedCh) then ErrClosed else if |old(queue)| < cap then Accepted else NoRoom
      ensures queue == if verdict.Accepted? then old(queue) + [old(nextJob)] else old(queue)
      ensures accepted == if verdict.Accepted? then old(accepted) + [old(nextJob)] else old(accepted)
      ensures rejected == if verdict.Accepted? then old(rejected)
                          else old(rejected)[old(nextJob) := Refusal(Kind.TrySubmit, verdict)]
      ensures unchanged(this`closedCh, this`cancelled, this`queueClosed, this`closeOnce, this`closers, this`taken)
    {
      hide Inv;
      var job := nextJob;
      var done := Submit(i, Begin(Kind.TrySubmit));
      done := Submit(i, Go);
      assert subs[i] == if closedCh then Idle else WantLock(Kind.TrySubmit, job);
      if closedCh {
        assert subs == old(subs);
        return ErrClosed;
      }
      done := Submit(i, Go);
      done := Submit(i, Go);
      assert subs == old(subs)[i := Sending(Kind.TrySubmit, job)];
      done := SendAndReturn(i);
      assert subs == old(subs);
      verdict := if done then Accepted else NoRoom;
    }

    /** SubmitWithContext unlocks: its send has succeeded and it returns, or there was no room and it waits. */
    method UnlockOrWait(i: nat)
      requires Valid() && i < |subs| && (subs[i].Sent? || (subs[i].Release? && subs[i].verdict.NoRoom?))
      requires subs[i].Release? ==> subs[i].kind.SubmitWithContext?
      modifies this
      ensures Valid() && mu.Free? && subs == old(subs)[i := if old(subs[i]).Sent? then Idle else Retry(old(subs[i].job))]
      ensures unchanged(this`closedCh, this`cancelled, this`queueClosed, this`closeOnce, this`closers, this`nextJob,
                        this`queue, this`accepted, this`taken, this`rejected)
    {
      hide Inv;
      var pc := subs[i];
      var done := Submit(i, Go);
      assert subs == old(subs)[i := if pc.Sent? then Post(Kind.SubmitWithContext, pc.job) else Retry(pc.job)];
      if pc.Sent? {
        done := Submit(i, Go);
        assert subs == old(subs)[i := Idle];
      }
    }

    /** The rest of an uninterrupted round of SubmitWithContext that has re-checked closedCh. */
    method SendOrWait(i: nat) returns (sent: bool)
      requires Valid() && i < |subs| && subs[i].Sending? && subs[i].kind.SubmitWithContext?
      modifies this
      ensures Valid() && mu.Free? && nextJob == old(nextJob) && sent == (|old(queue)| < cap)
      ensures subs == old(subs)[i := if sent then Idle else Retry(old(subs[i].job))]
      ensures queue == if sent then old(queue) + [old(subs[i].job)] else old(queue)
      ensures accepted == if sent then old(accepted) + [old(subs[i].job)] else old(accepted)
      ensures unchanged(this`closedCh, this`cancelled, this`queueClosed, this`closeOnce, this`closers, this`taken,
                        this`rejected)
    {
      SubFacts(View(), i);
      hide Inv;
      sent := |queue| < cap;
      var job := subs[i].job;
      var done := Submit(i, Go);
      assert subs == old(subs)[i := if sent then Sent(job) else Release(Kind.SubmitWithContext, job, NoRoom)];
      hide Step;
      UnlockOrWait(i);
    }

    /**
      A round of SubmitWithContext, when nobody interferes: with no room it goes on waiting, mu released and its job
      still pending; the verdict is then NoRoom.
     */
    method SubmitWithContext(i: nat) returns (verdict: Verdict)
      requires Valid() && i < |subs| && subs[i].Idle? && mu.Free?
      modifies this
      ensures Valid() && mu.Free? && nextJob == old(nextJob) + 1
      ensures verdict == if old(closedCh) then ErrClosed else if |old(queue)| < cap then Accepted else NoRoom
      ensures subs == if verdict.NoRoom? then old(subs)[i := Retry(old(nextJob))] else old(subs)
      ensures queue == if verdict.Accepted? then old(queue) + [old(nextJob)] else old(queue)
      ensures accepted == if verdict.Accepted? then old(accepted) + [old(nextJob)] else old(accepted)
      ensures rejected == if !verdict.ErrClosed? then old(rejected)
                          else old(rejected)[old(nextJob) := Refusal(Kind.SubmitWithContext, ErrClosed)]
      ensures unchanged(this`closedCh, this`cancelled, this`queueClosed, this`closeOnce, this`closers, this`taken)
    {
      hide Inv;
      var job := nextJob;
      var done := Submit(i, Begin(Kind.SubmitWithContext));
      done := Submit(i, Go);
      assert subs[i] == if closedCh then Idle else WantLock(Kind.SubmitWithContext, job);
      if closedCh {
        assert subs == old(subs);
        return ErrClosed;
      }
      done := Submit(i, Go);
      done := Submit(i, Go);
      assert subs == old(subs)[i := Sending(Kind.SubmitWithContext, job)];
      done := SendOrWait(i);
      assert done ==> subs == old(subs);
      verdict := if done then Accepted else NoRoom;
    }

    method CloseMove(k: nat) returns (done: bool)
      requires k < |closers| && (closers[k].AtClosedCh? ==> !closedCh) && (closers[k].AtQueue? ==> !queueClosed)
      modifies this
      ensures Made(old(View()), Action.Close(k), done)
    {
      done := true;
      match closers[k] {
      case Outside => closers := closers[k := AtOnce];
      case AtOnce =>
        if closeOnce.Fresh? {
          closeOnce, closers := Running(k), closers[k := AtClosedCh];
        } else if closeOnce.Done? {
          closers := closers[k := Closer.Outside];
        } else {
          done := false;
        }
      case AtClosedCh => closedCh, closers := true, closers[k := AtCancel];
      case AtCancel => cancelled, closers := true, closers[k := AtLock];
      case AtLock =>
        done := mu.Free?;
        if done {
          mu, closers := Closing(k), closers[k := AtQueue];
        }
      case AtQueue => queueClosed, closers := true, closers[k := AtUnlock];
      case AtUnlock => mu, closers := Free, closers[k := AtDone];
      case AtDone => closeOnce, closers := Done, closers[k := Closer.Outside];
      }
    }

    /** The next operation of Close in goroutine k. */
    method Close(k: nat) returns (done: bool)
      requires Valid() && k < |closers|
      modifies this
      ensures Valid() && Made(old(View()), Action.Close(k), done)
    {
      CloserFacts(View(), k);
      hide Inv;
      done := CloseMove(k);
      if done {
        hide Step;
        InvStep(Settings(), old(View()), Action.Close(k));
      }
    }

    /** A worker receives from the queue. */
    method Receive() returns (done: bool, job: Job)
      requires Valid()
      modifies this
      ensures Valid() && Made(old(View()), Take, done)
      ensures done ==> old(queue) != [] && job == old(queue)[0]
    {
      done, job := queue != [], 0;
      if done {
        job := queue[0];
        queue, taken := queue[1..], taken + [job];
        hide Inv;
        InvStep(Settings(), old(View()), Take);
      }
    }
  }
}
