/** How a run ends, told from what it did: failed exactly if a call of it threw, otherwise
    audited once, stopped once by a cancel, or with nothing to do
    (src/leads/apollo-search.processor.ts:63-68, 91-98, 147-166, 181-187 and 215-226). */
module RunEndings {
  import opened Prelude
  import opened SearchJobs
  import opened SearchJobsInvariant
  import opened CreditConservation

  /** What run `r` has done: audit records written, stops at a cancelled job, calls that
      threw while it was at work. */
  datatype Deeds = Deeds(audits: nat, stops: nat, throws: nat)

  function Add(d: Deeds, s: State, a: Action, r: nat): Deeds {
    if !(a.RunStep? && a.run == r && r < |s.runs|) then d
    else
      var pc := s.runs[r].pc;
      if a.input.Throw? && !pc.Finished? then d.(throws := d.throws + 1)
      else if a.input.Tick? && pc.Auditing? then d.(audits := d.audits + 1)
      else if a.input.Tick? && pc == SkippingRest(true) then d.(stops := d.stops + 1)
      else d
  }

  function DeedsOf(d: Deeds, s: State, actions: seq<Action>, r: nat): Deeds
    requires Wf(s)
    decreases |actions|
  {
    if actions == [] then d
    else
      StepKeepsWf(s, actions[0]);
      DeedsOf(Add(d, s, actions[0], r), Step(s, actions[0]), actions[1..], r)
  }

  /** There was somebody to look for or, in a direct match, a credit to look with. */
  predicate HadWork(run: Run) {
    if run.direct then run.next == 1 else run.candidates != []
  }

  ghost predicate RunAccounts(run: Run, d: Deeds) {
    && (run.pc.Failing? || run.pc == Finished(false) <==> d.throws > 0)
    && (run.pc != Finished(true) ==> d.audits == 0 && d.stops == 0)
    && (run.pc == Finished(true) ==> d.audits + d.stops == (if HadWork(run) then 1 else 0))
    && (run.pc == Finished(true) && run.direct ==> d.stops == 0)
    && (run.pc.Auditing? || run.pc == Completing(true) ==> HadWork(run))
    && (run.pc == Completing(false) ==> !HadWork(run))
    && (!run.direct && (run.pc.Creating? || run.pc.Checking? || InLoop(run.pc) || run.pc.SkippingRest?) ==>
          run.candidates != [])
  }

  ghost predicate Accounts(s: State, d: Deeds, r: nat) {
    if r < |s.runs| then RunAccounts(s.runs[r], d) else d == Deeds(0, 0, 0)
  }

  lemma ResultAccounts(s: State, r: nat, d: Deeds)
    requires Wf(s) && r < |s.runs| && RunAccounts(s.runs[r], d)
    requires s.runs[r].user < |s.users| && s.runs[r].job < |s.jobs|
    requires s.runs[r].pc.Recording? || s.runs[r].pc.RecordingMiss?
    ensures |TickStep(s, r).runs| == |s.runs|
    ensures RunAccounts(TickStep(s, r).runs[r], Add(d, s, RunStep(r, Tick), r))
  {
    var run := s.runs[r];
    assert RunWf(s, r, run);
    RunsCanWrite(s, r);
    WriteResultShape(s, r, if run.pc.Recording? then Enriched else Failed, run.pc.Recording? && run.pc.charged);
  }

  lemma OwnTickAccounts(s: State, r: nat, d: Deeds)
    requires Wf(s) && r < |s.runs| && RunAccounts(s.runs[r], d)
    requires s.runs[r].user < |s.users| && s.runs[r].job < |s.jobs|
    ensures |TickStep(s, r).runs| == |s.runs|
    ensures RunAccounts(TickStep(s, r).runs[r], Add(d, s, RunStep(r, Tick), r))
  {
    var run := s.runs[r];
    assert RunWf(s, r, run);
    if run.pc.Recording? || run.pc.RecordingMiss? {
      ResultAccounts(s, r, d);
    }
  }

  lemma OwnStepAccounts(s: State, r: nat, input: Input, d: Deeds)
    requires Wf(s) && r < |s.runs| && RunAccounts(s.runs[r], d)
    requires s.runs[r].user < |s.users| && s.runs[r].job < |s.jobs|
    ensures |WorkerStep(s, r, input).runs| == |s.runs|
    ensures RunAccounts(WorkerStep(s, r, input).runs[r], Add(d, s, RunStep(r, input), r))
  {
    assert RunWf(s, r, s.runs[r]);
    if input.Tick? { OwnTickAccounts(s, r, d); }
  }

  lemma StepAccounts(s: State, a: Action, d: Deeds, r: nat)
    requires Wf(s) && Accounts(s, d, r)
    ensures Accounts(Step(s, a), Add(d, s, a, r), r)
  {
    if a.RunStep? && a.run < |s.runs| {
      assert RunWf(s, a.run, s.runs[a.run]);
      WorkerStepFrame(s, a.run, a.input);
      if a.run == r { OwnStepAccounts(s, r, a.input, d); }
    }
  }

  lemma {:induction false} ExecAccounts(s: State, actions: seq<Action>, d: Deeds, r: nat)
    requires Wf(s) && Accounts(s, d, r)
    ensures Accounts(Exec(s, actions), DeedsOf(d, s, actions, r), r)
    decreases |actions|
  {
    if actions != [] {
      StepKeepsWf(s, actions[0]);
      StepAccounts(s, actions[0], d, r);
      ExecAccounts(Step(s, actions[0]), actions[1..], Add(d, s, actions[0], r), r);
    }
  }

  /** Over any interleaving a run that is done has failed exactly if a call of it threw; a
      run that ended cleanly wrote one audit record, unless it stopped at a cancel or had
      nobody to look for. No run writes two. */
  lemma EndingIsEarned(s: State, actions: seq<Action>, r: nat)
    requires Initial(s)
    ensures Wf(s)
    ensures var t, d := Exec(s, actions), DeedsOf(Deeds(0, 0, 0), s, actions, r);
      r < |t.runs| ==>
        && (t.runs[r].pc == Finished(false) ==> d.throws > 0)
        && (t.runs[r].pc == Finished(true) ==>
              d.throws == 0 && d.audits + d.stops == if HadWork(t.runs[r]) then 1 else 0)
        && d.audits <= 1 && (d.stops > 0 ==> d.audits == 0 && !t.runs[r].direct)
  {
    ExecAccounts(s, actions, Deeds(0, 0, 0), r);
  }
}
