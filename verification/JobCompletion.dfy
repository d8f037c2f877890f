/** What a job's status says at the end: COMPLETED once its runs have ended cleanly
    (src/leads/apollo-search.processor.ts:63-68, 142-145, 182-187 and 210-213). */
module JobCompletion {
  import opened Prelude
  import opened SearchJobs
  import opened SearchJobsInvariant
  import opened CreditConservation
  import opened CollectedPeople

  /** Nobody cancels the job, and it is only extended when its earlier runs have ended
      cleanly and nobody else is asking. */
  ghost predicate Undisturbed(s: State, a: Action, job: nat) {
    match a
    case CommitCancel(q) => !(q < |s.requests| && s.requests[q].Cancel? && s.requests[q].job == job)
    case AskExtend(_, j) => j == job ==> AllFinished(s, job) && NoneOpen(s, job)
    case _ => true
  }

  ghost predicate AllUndisturbed(s: State, actions: seq<Action>, job: nat)
    requires Wf(s)
    decreases |actions|
  {
    actions != [] ==>
      && Undisturbed(s, actions[0], job)
      && (StepKeepsWf(s, actions[0]); AllUndisturbed(Step(s, actions[0]), actions[1..], job))
  }

  /** The run has its status write still ahead of it. */
  predicate Working(pc: Pc) { !pc.Auditing? && !pc.Failing? && !pc.Finished? }

  predicate IsQueueing(request: Request, job: nat) { request.Queueing? && request.job == job }

  /** What one run of the job says about the job's status. */
  ghost predicate RunSays(s: State, job: nat, r: nat)
    requires r < |s.runs| && job < |s.jobs|
  {
    var run := s.runs[r];
    run.job == job ==>
      && (Working(run.pc) ==> s.jobs[job].status == RUNNING)
      && (run.pc == Auditing ==> s.jobs[job].status == COMPLETED)
      && run.pc != SkippingRest(true)
      && (forall q :: r < q < |s.runs| && s.runs[q].job == job ==> run.pc == Finished(true))
  }

  ghost predicate RequestSays(s: State, job: nat, q: nat)
    requires q < |s.requests| && job < |s.jobs|
  {
    && (IsQueueing(s.requests[q], job) ==> s.jobs[job].status == RUNNING)
    && (IsOpen(s.requests[q], job) ==>
          && AllFinished(s, job)
          && (forall p :: 0 <= p < |s.requests| && IsOpen(s.requests[p], job) ==> p == q))
  }

  /** Nothing of the job is under way. */
  ghost predicate AtRest(s: State, job: nat) {
    && AllFinished(s, job)
    && (forall q :: 0 <= q < |s.requests| ==> !IsQueueing(s.requests[q], job))
    && (exists r :: 0 <= r < |s.runs| && s.runs[r].job == job)
  }

  ghost predicate StatusWf(s: State, job: nat) {
    && job < |s.jobs|
    && s.jobs[job].status != CANCELLED
    && (forall q :: 0 <= q < |s.requests| ==> RequestSays(s, job, q))
    && (forall r :: 0 <= r < |s.runs| ==> RunSays(s, job, r))
    && (AtRest(s, job) ==> s.jobs[job].status == COMPLETED)
  }

  // ── Worker steps ──────────────────────────────────────────────────────

  lemma TickStatus(s: State, r: nat)
    requires r < |s.runs| && CanWrite(s, r)
    requires s.runs[r].user < |s.users| && s.runs[r].job < |s.jobs|
    ensures var s', job := TickStep(s, r), s.runs[r].job;
      && |s'.runs| == |s.runs| && |s'.jobs| == |s.jobs|
      && var before, after := s.runs[r].pc, s'.runs[r].pc;
      && (before.Completing? ==> s'.jobs[job].status == COMPLETED && (after == Auditing || after == Finished(true)))
      && (before == Auditing ==> after == Finished(true))
      && (before == Failing ==> after == Finished(false))
      && (!before.Completing? && before != Failing ==> s'.jobs[job].status == s.jobs[job].status)
      && (Working(before) && !before.Completing? && before != SkippingRest(true) ==> Working(after))
      && (before.Finished? ==> s' == s)
      && (after == SkippingRest(true) ==> before == Checking && s.jobs[job].status == CANCELLED)
  {
    match s.runs[r].pc
    case Recording(charged) => WriteResultShape(s, r, Enriched, charged);
    case RecordingMiss => WriteResultShape(s, r, Failed, false);
    case _ =>
  }

  lemma AnswerStatus(s: State, r: nat, input: Input)
    requires r < |s.runs| && !input.Tick?
    requires s.runs[r].user < |s.users| && s.runs[r].job < |s.jobs|
    ensures var s' := WorkerStep(s, r, input);
      && |s'.runs| == |s.runs| && s'.jobs == s.jobs
      && var before, after := s.runs[r].pc, s'.runs[r].pc;
      && (before.Finished? ==> after == before)
      && (after != SkippingRest(true) || after == before)
      && ((after == Auditing || after == Finished(true)) ==> after == before)
      && (Working(after) ==> Working(before))
  {
  }

  lemma OwnRunKeepsStatus(s: State, r: nat, input: Input, job: nat)
    requires StatusWf(s, job) && r < |s.runs| && CanWrite(s, r) && s.runs[r].job == job
    requires s.runs[r].user < |s.users|
    ensures StatusWf(WorkerStep(s, r, input), job)
  {
    var s' := WorkerStep(s, r, input);
    WorkerStepFrame(s, r, input);
    assert RunSays(s, job, r);
    if input.Tick? { TickStatus(s, r); } else { AnswerStatus(s, r, input); }
    if s.runs[r].pc == Finished(true) {
      assert s'.runs[r].pc == Finished(true) && s'.jobs == s.jobs;
    }
    forall q | 0 <= q < |s'.runs| ensures RunSays(s', job, q) { assert RunSays(s, job, q); }
    forall q | 0 <= q < |s'.requests| ensures RequestSays(s', job, q) { assert RequestSays(s, job, q); }
    if AtRest(s', job) {
      forall q | 0 <= q < |s.runs| && s.runs[q].job == job && q != r ensures s.runs[q].pc == Finished(true) {
        assert s'.runs[q] == s.runs[q];
      }
      assert s'.runs[r].pc == Finished(true);
    }
  }

  lemma OtherRunKeepsStatus(s: State, r: nat, input: Input, job: nat)
    requires StatusWf(s, job) && r < |s.runs| && s.runs[r].job != job
    requires s.runs[r].user < |s.users| && s.runs[r].job < |s.jobs|
    ensures StatusWf(WorkerStep(s, r, input), job)
  {
    var s' := WorkerStep(s, r, input);
    WorkerStepFrame(s, r, input);
    forall q | 0 <= q < |s'.runs| ensures RunSays(s', job, q) { assert RunSays(s, job, q); }
    SameView(s, s', job);
    forall q | 0 <= q < |s'.requests| ensures RequestSays(s', job, q) { assert RequestSays(s, job, q); }
  }

  /** Runs of other jobs do not matter to what a job is at. */
  lemma SameView(s: State, s': State, job: nat)
    requires |s'.runs| == |s.runs| && s'.requests == s.requests
    requires forall q :: 0 <= q < |s.runs| ==>
      s'.runs[q].job == s.runs[q].job && (s.runs[q].job == job ==> s'.runs[q] == s.runs[q])
    ensures AllFinished(s', job) <==> AllFinished(s, job)
    ensures AtRest(s', job) <==> AtRest(s, job)
  {
    if AtRest(s', job) {
      var r :| 0 <= r < |s'.runs| && s'.runs[r].job == job;
      assert s.runs[r].job == job;
    }
    if AtRest(s, job) {
      var r :| 0 <= r < |s.runs| && s.runs[r].job == job;
      assert s'.runs[r].job == job;
    }
  }

  // ── Requests ──────────────────────────────────────────────────────────

  /** Steps that leave the runs, the job and its open requests alone. */
  lemma QuietStepKeepsStatus(s: State, s': State, job: nat)
    requires StatusWf(s, job) && s'.runs == s.runs
    requires job < |s'.jobs| && s'.jobs[job] == s.jobs[job]
    requires |s.requests| <= |s'.requests|
    requires forall q :: 0 <= q < |s.requests| ==>
      && (IsOpen(s'.requests[q], job) <==> IsOpen(s.requests[q], job))
      && (IsQueueing(s'.requests[q], job) <==> IsQueueing(s.requests[q], job))
    requires forall q :: |s.requests| <= q < |s'.requests| ==> !IsOpen(s'.requests[q], job)
    ensures StatusWf(s', job)
  {
    forall r | 0 <= r < |s'.runs| ensures RunSays(s', job, r) { assert RunSays(s, job, r); }
    forall q | 0 <= q < |s'.requests| ensures RequestSays(s', job, q) {
      if q < |s.requests| { assert RequestSays(s, job, q); }
    }
    if AtRest(s', job) {
      forall q | 0 <= q < |s.requests| ensures !IsQueueing(s.requests[q], job) {
        assert !IsQueueing(s'.requests[q], job);
      }
    }
  }

  lemma AskKeepsStatus(s: State, user: nat, job: nat)
    requires StatusWf(s, job) && AllFinished(s, job) && NoneOpen(s, job)
    ensures StatusWf(AskMoreLeads(s, user, job), job)
  {
    var s' := AskMoreLeads(s, user, job);
    forall r | 0 <= r < |s'.runs| ensures RunSays(s', job, r) { assert RunSays(s, job, r); }
    forall q | 0 <= q < |s'.requests| ensures RequestSays(s', job, q) {
      assert forall p :: 0 <= p < |s.requests| ==> !IsOpen(s'.requests[p], job);
    }
    if AtRest(s', job) {
      forall q | 0 <= q < |s.requests| ensures !IsQueueing(s.requests[q], job) {
        assert !IsQueueing(s'.requests[q], job);
      }
    }
  }

  lemma ReopenKeepsStatus(s: State, q: nat, cap: nat, job: nat)
    requires StatusWf(s, job) && q < |s.requests| && s.requests[q].Extend? && s.requests[q].job == job
    ensures StatusWf(ReopenJob(s, q, cap), job)
  {
    var s' := ReopenJob(s, q, cap);
    assert RequestSays(s, job, q);
    forall r | 0 <= r < |s'.runs| ensures RunSays(s', job, r) { assert RunSays(s, job, r); }
    forall p | 0 <= p < |s'.requests| ensures RequestSays(s', job, p) { assert RequestSays(s, job, p); }
    assert IsQueueing(s'.requests[q], job);
  }

  lemma EnqueueKeepsStatus(s: State, q: nat, job: nat)
    requires StatusWf(s, job) && q < |s.requests| && s.requests[q].Queueing? && s.requests[q].job == job
    ensures StatusWf(QueueRun(s, q), job)
  {
    var s', n := QueueRun(s, q), |s.runs|;
    assert RequestSays(s, job, q);
    assert IsQueueing(s.requests[q], job) && IsOpen(s.requests[q], job);
    assert s'.runs[n].job == job && Working(s'.runs[n].pc);
    forall r | 0 <= r < |s'.runs| ensures RunSays(s', job, r) {
      if r < n { assert RunSays(s, job, r); }
    }
    forall p | 0 <= p < |s'.requests| ensures RequestSays(s', job, p) {
      assert RequestSays(s, job, p);
      assert p != q ==> !IsOpen(s.requests[p], job);
    }
  }

  /** A run queued for another job. */
  lemma OtherEnqueueKeepsStatus(s: State, q: nat, job: nat)
    requires StatusWf(s, job) && q < |s.requests| && s.requests[q].Queueing? && s.requests[q].job != job
    requires s.requests[q].job < |s.jobs|
    ensures StatusWf(QueueRun(s, q), job)
  {
    var s', n := QueueRun(s, q), |s.runs|;
    assert s'.runs[n].job != job;
    forall r | 0 <= r < |s'.runs| ensures RunSays(s', job, r) {
      if r < n { assert RunSays(s, job, r); }
    }
    assert forall r :: 0 <= r < n ==> s'.runs[r] == s.runs[r];
    forall p | 0 <= p < |s'.requests| ensures RequestSays(s', job, p) { assert RequestSays(s, job, p); }
    if AtRest(s', job) {
      var r :| 0 <= r < |s'.runs| && s'.runs[r].job == job;
      assert r < n && s.runs[r].job == job;
      forall p | 0 <= p < |s.requests| ensures !IsQueueing(s.requests[p], job) {
        assert !IsQueueing(s'.requests[p], job);
      }
    }
  }

  lemma StepKeepsStatus(s: State, a: Action, job: nat)
    requires Wf(s) && StatusWf(s, job) && Undisturbed(s, a, job)
    ensures StatusWf(Step(s, a), job)
  {
    match a
    case RunStep(r, input) => RunStepKeepsStatus(s, r, input, job);
    case Enqueue(q) =>
      if q < |s.requests| && s.requests[q].Queueing? {
        assert RequestWf(s, s.requests[q]);
        if s.requests[q].job == job { EnqueueKeepsStatus(s, q, job); } else { OtherEnqueueKeepsStatus(s, q, job); }
      }
    case _ => RequestKeepsStatus(s, a, job);
  }

  lemma RunStepKeepsStatus(s: State, r: nat, input: Input, job: nat)
    requires Wf(s) && StatusWf(s, job)
    ensures StatusWf(Step(s, RunStep(r, input)), job)
  {
    if r < |s.runs| {
      assert RunWf(s, r, s.runs[r]);
      RunsCanWrite(s, r);
      if s.runs[r].job == job { OwnRunKeepsStatus(s, r, input, job); } else { OtherRunKeepsStatus(s, r, input, job); }
    }
  }

  lemma RequestKeepsStatus(s: State, a: Action, job: nat)
    requires Wf(s) && StatusWf(s, job) && Undisturbed(s, a, job) && !a.RunStep? && !a.Enqueue?
    ensures StatusWf(Step(s, a), job)
  {
    if a.Reopen? && a.request < |s.requests| && s.requests[a.request].Extend? && s.requests[a.request].job == job {
      ReopenKeepsStatus(s, a.request, a.cap, job);
    } else if a.AskExtend? && a.job == job {
      AskKeepsStatus(s, a.user, job);
    } else {
      if (a.Reopen? || a.CommitCancel?) && a.request < |s.requests| { assert RequestWf(s, s.requests[a.request]); }
      QuietStepKeepsStatus(s, Step(s, a), job);
    }
  }

  lemma {:induction false} RunKeepsStatus(s: State, actions: seq<Action>, job: nat)
    requires Wf(s) && StatusWf(s, job) && AllUndisturbed(s, actions, job)
    ensures StatusWf(Exec(s, actions), job)
    decreases |actions|
  {
    if actions != [] {
      StepKeepsWf(s, actions[0]);
      StepKeepsStatus(s, actions[0], job);
      RunKeepsStatus(Step(s, actions[0]), actions[1..], job);
    }
  }

  lemma StartSaysRunning(s: State, user: nat, cap: nat, direct: bool, now: int)
    requires Wf(s) && user < |s.users|
    ensures StatusWf(Step(s, StartSearch(user, cap, direct, now)), |s.jobs|)
    ensures Step(s, StartSearch(user, cap, direct, now)).jobs[|s.jobs|].status == RUNNING
  {
    var s', job := Step(s, StartSearch(user, cap, direct, now)), |s.jobs|;
    forall r | 0 <= r < |s.runs| ensures s.runs[r].job != job { assert RunWf(s, r, s.runs[r]); }
    forall q | 0 <= q < |s.requests| ensures !IsOpen(s.requests[q], job) { assert RequestWf(s, s.requests[q]); }
  }

  /** Over any interleaving in which nobody cancels the job and its extensions follow one
      another, criteria search or direct match: the job reads RUNNING while a run of it is
      at work or about to be queued, and COMPLETED once its runs have all ended cleanly. */
  lemma CleanJobReadsCompleted(
    s: State, user: nat, cap: nat, direct: bool, now: int, actions: seq<Action>)
    requires Wf(s) && user < |s.users|
    requires Wf(Step(s, StartSearch(user, cap, direct, now)))
    requires AllUndisturbed(Step(s, StartSearch(user, cap, direct, now)), actions, |s.jobs|)
    ensures var t, job := Exec(Step(s, StartSearch(user, cap, direct, now)), actions), |s.jobs|;
      && job < |t.jobs|
      && (AtRest(t, job) ==> t.jobs[job].status == COMPLETED)
      && (forall r :: 0 <= r < |t.runs| && t.runs[r].job == job && Working(t.runs[r].pc) ==>
            t.jobs[job].status == RUNNING)
      && (forall q :: 0 <= q < |t.requests| && IsQueueing(t.requests[q], job) ==> t.jobs[job].status == RUNNING)
  {
    var started, job := Step(s, StartSearch(user, cap, direct, now)), |s.jobs|;
    StartSaysRunning(s, user, cap, direct, now);
    RunKeepsStatus(started, actions, job);
    var t := Exec(started, actions);
    forall r | 0 <= r < |t.runs| && t.runs[r].job == job && Working(t.runs[r].pc)
      ensures t.jobs[job].status == RUNNING
    {
      assert RunSays(t, job, r);
    }
    forall q | 0 <= q < |t.requests| && IsQueueing(t.requests[q], job) ensures t.jobs[job].status == RUNNING {
      assert RequestSays(t, job, q);
    }
  }

  // ── A cancel that is obeyed ───────────────────────────────────────────

  /** The job is cancelled, its only run at work has a status check ahead of it or has
      stopped at one, and nobody is asking for more. */
  ghost predicate Obeying(s: State, job: nat, r: nat) {
    && job < |s.jobs| && s.jobs[job].status == CANCELLED && NoneOpen(s, job)
    && r < |s.runs| && s.runs[r].job == job
    && (forall q :: 0 <= q < |s.runs| && q != r && s.runs[q].job == job ==> s.runs[q].pc.Finished?)
    && var run := s.runs[r];
    (run.pc == Checking && run.next < |run.candidates|) || run.pc == SkippingRest(true) || run.pc == Finished(true)
  }

  lemma WorkerKeepsObeying(s: State, q: nat, input: Input, job: nat, r: nat)
    requires Obeying(s, job, r) && q < |s.runs| && !(q == r && input.Throw?)
    requires s.runs[q].user < |s.users| && s.runs[q].job < |s.jobs|
    ensures Obeying(WorkerStep(s, q, input), job, r)
    ensures WorkerStep(s, q, input).runs[r].calls == s.runs[r].calls
  {
    WorkerStepFrame(s, q, input);
    if s.runs[q].job == job && q != r { FinishedRunRests(s, q, input); }
  }

  /** A run that has ended writes no status. */
  lemma FinishedRunRests(s: State, q: nat, input: Input)
    requires q < |s.runs| && s.runs[q].pc.Finished?
    requires s.runs[q].user < |s.users| && s.runs[q].job < |s.jobs|
    ensures var s' := WorkerStep(s, q, input);
      s'.jobs == s.jobs && |s'.runs| == |s.runs| && s'.runs[q].pc == s.runs[q].pc
  {
  }

  lemma StepKeepsObeying(s: State, a: Action, job: nat, r: nat)
    requires Wf(s) && Obeying(s, job, r)
    requires a != RunStep(r, Throw) && !(a.AskExtend? && a.job == job)
    ensures Obeying(Step(s, a), job, r) && Step(s, a).runs[r].calls == s.runs[r].calls
  {
    if a.RunStep? && a.run < |s.runs| {
      assert RunWf(s, a.run, s.runs[a.run]);
      WorkerKeepsObeying(s, a.run, a.input, job, r);
    } else if a.Enqueue? && a.request < |s.requests| {
      assert !IsOpen(s.requests[a.request], job);
    } else if a.Reopen? && a.request < |s.requests| {
      assert !IsOpen(s.requests[a.request], job);
    }
  }

  /** A cancelled job whose one run at work has yet to read the status stays CANCELLED, and
      that run begins no further call and stops, unless it throws or the job is extended. */
  lemma {:induction false} CancelIsObeyed(s: State, actions: seq<Action>, job: nat, r: nat)
    requires Wf(s) && Obeying(s, job, r)
    requires forall i :: 0 <= i < |actions| ==>
      actions[i] != RunStep(r, Throw) && !(actions[i].AskExtend? && actions[i].job == job)
    ensures Obeying(Exec(s, actions), job, r)
    ensures Exec(s, actions).runs[r].calls == s.runs[r].calls
    decreases |actions|
  {
    if actions != [] {
      StepKeepsWf(s, actions[0]);
      StepKeepsObeying(s, actions[0], job, r);
      assert forall i :: 0 <= i < |actions[1..]| ==> actions[1..][i] == actions[i + 1];
      CancelIsObeyed(Step(s, actions[0]), actions[1..], job, r);
    }
  }

  /** A cancel that lands after the run's last check is overwritten. */
  lemma LateCancelIsOverwritten(s: State, r: nat)
    requires Wf(s) && r < |s.runs| && s.runs[r].pc.Completing?
    ensures s.runs[r].job < |s.jobs|
    ensures Step(s, RunStep(r, Tick)).jobs[s.runs[r].job].status == COMPLETED
  {
    assert RunWf(s, r, s.runs[r]);
  }
}
