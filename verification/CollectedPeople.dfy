/** What a search and its extensions put on file, over any interleaving with everything
    else: the first people of Apollo's ranking (src/leads/apollo-search.processor.ts:50-82,
    src/leads/leads.service.ts:751-771). */
module CollectedPeople {
  import opened Prelude
  import opened OverFetch
  import opened SearchJobs
  import opened SearchJobsInvariant
  import opened CreditConservation

  /** Everybody the first `n` runs have picked for a job. */
  function Picked(runs: seq<Run>, job: nat, n: nat): set<Person>
    requires n <= |runs|
  {
    if n == 0 then {}
    else Picked(runs, job, n - 1) + if runs[n - 1].job == job then People(runs[n - 1].candidates) else {}
  }

  lemma {:induction false} PickedMembers(runs: seq<Run>, job: nat, n: nat, p: Person)
    requires n <= |runs|
    ensures p in Picked(runs, job, n) <==> exists r :: 0 <= r < n && runs[r].job == job && p in runs[r].candidates
  {
    if n > 0 { PickedMembers(runs, job, n - 1, p); }
  }

  lemma {:induction false} PickedAgrees(a: seq<Run>, b: seq<Run>, job: nat, n: nat)
    requires n <= |a| && n <= |b|
    requires forall r :: 0 <= r < n ==> a[r].job == b[r].job && (a[r].job == job ==> a[r].candidates == b[r].candidates)
    ensures Picked(a, job, n) == Picked(b, job, n)
  {
    if n > 0 { PickedAgrees(a, b, job, n - 1); }
  }

  /** The run has its answer from Apollo and has not failed. */
  predicate Searched(pc: Pc) {
    pc != Searching && pc != Failing && pc != Finished(false)
  }

  ghost predicate AllFinished(s: State, job: nat) {
    forall r :: 0 <= r < |s.runs| && s.runs[r].job == job ==> s.runs[r].pc == Finished(true)
  }

  /** A request that will lead to another run of the job. */
  predicate IsOpen(request: Request, job: nat) {
    (request.Extend? || request.Queueing?) && request.job == job
  }

  ghost predicate NoneOpen(s: State, job: nat) {
    forall q :: 0 <= q < |s.requests| ==> !IsOpen(s.requests[q], job)
  }

  /** A run that left out exactly what earlier runs had picked and took its candidates
      from a page of the ranking, after those runs had finished. */
  ghost predicate RunOrderly(ranking: seq<Person>, s: State, job: nat, r: nat)
    requires r < |s.runs|
  {
    var run := s.runs[r];
    run.job == job ==>
      && !run.direct && run.excluded == Picked(s.runs, job, r)
      && (run.pc == Searching ==> run.candidates == [])
      && (Searched(run.pc) ==> run.candidates == Selected(ranking, run.excluded, run.cap))
      && (forall q :: r < q < |s.runs| && s.runs[q].job == job ==> run.pc == Finished(true))
  }

  ghost predicate RequestsOrderly(s: State, job: nat) {
    && (forall p, q ::
          0 <= p < |s.requests| && 0 <= q < |s.requests| && IsOpen(s.requests[p], job) && IsOpen(s.requests[q], job) ==>
            p == q)
    && (forall q :: 0 <= q < |s.requests| && IsOpen(s.requests[q], job) ==>
          AllFinished(s, job) && s.requests[q].excluded == Picked(s.runs, job, |s.runs|))
  }

  lemma OpenMeansFinished(ranking: seq<Person>, s: State, job: nat, q: nat)
    requires Orderly(ranking, s, job) && q < |s.requests| && IsOpen(s.requests[q], job)
    ensures AllFinished(s, job) && s.requests[q].excluded == Picked(s.runs, job, |s.runs|)
    ensures forall p :: 0 <= p < |s.requests| && IsOpen(s.requests[p], job) ==> p == q
  {
    assert RequestsOrderly(s, job);
  }

  ghost predicate Orderly(ranking: seq<Person>, s: State, job: nat) {
    && job < |s.jobs| && !s.jobs[job].direct
    && RequestsOrderly(s, job)
    && (forall r :: 0 <= r < |s.runs| ==> RunOrderly(ranking, s, job, r))
  }

  /** What an orderly life of the job asks of a step: searches answer with pages of the
      ranking, and more people are only asked for when the earlier runs have finished
      cleanly and nobody else is asking. */
  ghost predicate Allowed(ranking: seq<Person>, s: State, a: Action, job: nat) {
    match a
    case RunStep(r, Found(people)) =>
      r < |s.runs| && s.runs[r].job == job && s.runs[r].pc == Searching ==>
        people == Page(ranking, s.runs[r].excluded, s.runs[r].cap)
    case AskExtend(_, j) => j == job ==> AllFinished(s, job) && NoneOpen(s, job)
    case _ => true
  }

  ghost predicate AllAllowed(ranking: seq<Person>, s: State, actions: seq<Action>, job: nat)
    requires Wf(s)
    decreases |actions|
  {
    actions != [] ==>
      && Allowed(ranking, s, actions[0], job)
      && (StepKeepsWf(s, actions[0]); AllAllowed(ranking, Step(s, actions[0]), actions[1..], job))
  }

  lemma RunsAreSearches(ranking: seq<Person>, s: State, job: nat)
    requires Orderly(ranking, s, job)
    ensures forall r :: 0 <= r < |s.runs| && s.runs[r].job == job ==> !s.runs[r].direct
  {
    forall r | 0 <= r < |s.runs| && s.runs[r].job == job ensures !s.runs[r].direct {
      assert RunOrderly(ranking, s, job, r);
    }
  }

  // ── Rows and candidates ───────────────────────────────────────────────

  /** Once the job's runs have finished cleanly its rows are exactly the people picked. */
  lemma RowsArePicked(s: State, job: nat)
    requires Wf(s) && AllFinished(s, job)
    requires forall r :: 0 <= r < |s.runs| && s.runs[r].job == job ==> !s.runs[r].direct
    ensures PeopleOf(s.rows, job) == Picked(s.runs, job, |s.runs|)
  {
    forall p | p in PeopleOf(s.rows, job) ensures p in Picked(s.runs, job, |s.runs|) {
      var id :| 0 <= id < |s.rows| && s.rows[id].job == job && s.rows[id].person == p;
      var row := s.rows[id];
      assert RowWf(s, id, row);
      assert RunWf(s, row.run, s.runs[row.run]);
      assert SlotWf(s, row.run, s.runs[row.run], row.slot);
      assert s.runs[row.run].candidates[row.slot] == p;
      PickedMembers(s.runs, job, |s.runs|, p);
    }
    forall p | p in Picked(s.runs, job, |s.runs|) ensures p in PeopleOf(s.rows, job) {
      PickedMembers(s.runs, job, |s.runs|, p);
      var r :| 0 <= r < |s.runs| && s.runs[r].job == job && p in s.runs[r].candidates;
      var k :| 0 <= k < |s.runs[r].candidates| && s.runs[r].candidates[k] == p;
      OnFile(s, r, k);
    }
  }

  lemma OnFile(s: State, r: nat, k: nat)
    requires Wf(s) && r < |s.runs| && s.runs[r].pc == Finished(true) && !s.runs[r].direct && k < |s.runs[r].candidates|
    ensures s.runs[r].candidates[k] in PeopleOf(s.rows, s.runs[r].job)
  {
    var run := s.runs[r];
    assert RunWf(s, r, run);
    assert Ended(run.pc);
    assert None !in run.ids;
    assert run.ids[k] in run.ids;
    assert SlotWf(s, r, run, k);
    assert RowWf(s, run.ids[k].value, s.rows[run.ids[k].value]);
  }

  // ── Every allowed step keeps the order ────────────────────────────────

  /** What a worker step can do to its run's search. */
  lemma SearchedOnce(s: State, r: nat, input: Input)
    requires r < |s.runs| && CanWrite(s, r)
    requires s.runs[r].user < |s.users| && s.runs[r].job < |s.jobs|
    ensures |WorkerStep(s, r, input).runs| == |s.runs|
    ensures var before, after := s.runs[r], WorkerStep(s, r, input).runs[r];
      && after.excluded == before.excluded && after.cap == before.cap
      && (before.pc == Finished(true) ==> after == before)
      && (after.pc == Searching ==> before.pc == Searching && after.candidates == before.candidates)
      && (Searched(before.pc) ==> after.candidates == before.candidates)
      && (Searched(after.pc) && before.pc != Searching ==> Searched(before.pc))
    ensures s.runs[r].pc == Searching && Searched(WorkerStep(s, r, input).runs[r].pc) ==>
      input.Found? && WorkerStep(s, r, input).runs[r].candidates == (
        if Candidates(input.people, s.runs[r].excluded, s.runs[r].cap) == [] then s.runs[r].candidates
        else Candidates(input.people, s.runs[r].excluded, s.runs[r].cap))
  {
    if input.Tick? { TickKeepsCandidates(s, r); }
  }

  lemma TickKeepsCandidates(s: State, r: nat)
    requires r < |s.runs| && CanWrite(s, r)
    requires s.runs[r].user < |s.users| && s.runs[r].job < |s.jobs|
    ensures |TickStep(s, r).runs| == |s.runs|
    ensures var before, after := s.runs[r], TickStep(s, r).runs[r];
      && after.excluded == before.excluded && after.cap == before.cap && after.candidates == before.candidates
      && (before.pc == Finished(true) ==> after == before)
      && (Searched(after.pc) ==> Searched(before.pc))
      && (after.pc == Searching ==> before.pc == Searching)
  {
    match s.runs[r].pc
    case Recording(charged) => WriteResultShape(s, r, Enriched, charged);
    case RecordingMiss => WriteResultShape(s, r, Failed, false);
    case _ =>
  }

  lemma WorkerStepKeepsOrder(ranking: seq<Person>, s: State, r: nat, input: Input, job: nat)
    requires Orderly(ranking, s, job) && r < |s.runs| && CanWrite(s, r)
    requires s.runs[r].user < |s.users| && s.runs[r].job < |s.jobs|
    requires Allowed(ranking, s, RunStep(r, input), job)
    ensures Orderly(ranking, WorkerStep(s, r, input), job)
  {
    var s' := WorkerStep(s, r, input);
    WorkerStepFrame(s, r, input);
    SearchedOnce(s, r, input);
    assert RunOrderly(ranking, s, job, r);
    if s.runs[r].job == job && s.runs[r].pc == Finished(true) {
      assert s'.runs == s.runs;
      forall q | 0 <= q < |s'.runs| ensures RunOrderly(ranking, s', job, q) { assert RunOrderly(ranking, s, job, q); }
    } else {
      OneRunChanges(ranking, s, s', r, job);
    }
  }

  /** A change to a run of another job, or to the job's last run. */
  lemma OneRunChanges(ranking: seq<Person>, s: State, s': State, r: nat, job: nat)
    requires Orderly(ranking, s, job) && r < |s.runs| == |s'.runs|
    requires s'.runs == s.runs[r := s'.runs[r]] && s'.runs[r].job == s.runs[r].job
    requires s'.requests == s.requests && |s'.jobs| == |s.jobs| && s'.jobs[job].direct == s.jobs[job].direct
    requires s.runs[r].job == job ==>
      && s.runs[r].pc != Finished(true)
      && var run, run' := s.runs[r], s'.runs[r];
      && run'.excluded == run.excluded && run'.direct == run.direct
      && (run'.pc == Searching ==> run'.candidates == [])
      && (Searched(run'.pc) ==> run'.candidates == Selected(ranking, run'.excluded, run'.cap))
    ensures Orderly(ranking, s', job)
  {
    assert RunOrderly(ranking, s, job, r);
    forall q | 0 <= q < |s'.runs| ensures RunOrderly(ranking, s', job, q) {
      assert RunOrderly(ranking, s, job, q);
      if s.runs[q].job == job { PickedAgrees(s'.runs, s.runs, job, q); }
    }
    forall q | 0 <= q < |s'.requests| && IsOpen(s'.requests[q], job)
      ensures AllFinished(s', job) && s'.requests[q].excluded == Picked(s'.runs, job, |s'.runs|)
    {
      OpenMeansFinished(ranking, s, job, q);
      assert s.runs[r].job != job;
      PickedAgrees(s'.runs, s.runs, job, |s.runs|);
    }
  }

  /** Runs stay as they are and no request of the job opens. */
  lemma QuietStepKeepsOrder(ranking: seq<Person>, s: State, s': State, job: nat)
    requires Orderly(ranking, s, job) && s'.runs == s.runs
    requires |s.jobs| <= |s'.jobs| && s'.jobs[job].direct == s.jobs[job].direct
    requires |s.requests| <= |s'.requests|
    requires forall q :: 0 <= q < |s.requests| && IsOpen(s'.requests[q], job) ==>
               IsOpen(s.requests[q], job) && s'.requests[q].excluded == s.requests[q].excluded
    requires forall q :: |s.requests| <= q < |s'.requests| ==> !IsOpen(s'.requests[q], job)
    ensures Orderly(ranking, s', job)
  {
    forall r | 0 <= r < |s'.runs| ensures RunOrderly(ranking, s', job, r) { assert RunOrderly(ranking, s, job, r); }
    forall q | 0 <= q < |s'.requests| && IsOpen(s'.requests[q], job)
      ensures AllFinished(s', job) && s'.requests[q].excluded == Picked(s'.runs, job, |s'.runs|)
      ensures forall p :: 0 <= p < |s'.requests| && IsOpen(s'.requests[p], job) ==> p == q
    {
      OpenMeansFinished(ranking, s, job, q);
    }
  }

  lemma EnqueueKeepsOrder(ranking: seq<Person>, s: State, q: nat, job: nat)
    requires Orderly(ranking, s, job) && q < |s.requests| && s.requests[q].Queueing? && s.requests[q].job < |s.jobs|
    ensures Orderly(ranking, QueueRun(s, q), job)
  {
    var s', n := QueueRun(s, q), |s.runs|;
    assert forall r :: 0 <= r < n ==> s'.runs[r] == s.runs[r];
    forall r | 0 <= r < |s'.runs| ensures RunOrderly(ranking, s', job, r) {
      PickedAgrees(s'.runs, s.runs, job, r);
      if r < n { assert RunOrderly(ranking, s, job, r); }
      if s.requests[q].job == job { OpenMeansFinished(ranking, s, job, q); }
    }
    forall p | 0 <= p < |s'.requests| && IsOpen(s'.requests[p], job)
      ensures AllFinished(s', job) && s'.requests[p].excluded == Picked(s'.runs, job, |s'.runs|)
    {
      assert p != q;
      OpenMeansFinished(ranking, s, job, p);
      assert !IsOpen(s.requests[q], job);
      PickedAgrees(s'.runs, s.runs, job, n);
    }
  }

  lemma AskKeepsOrder(ranking: seq<Person>, s: State, user: nat, job: nat)
    requires Wf(s) && Orderly(ranking, s, job) && AllFinished(s, job) && NoneOpen(s, job)
    ensures Orderly(ranking, AskMoreLeads(s, user, job), job)
  {
    var s' := AskMoreLeads(s, user, job);
    forall r | 0 <= r < |s.runs| ensures RunOrderly(ranking, s', job, r) { assert RunOrderly(ranking, s, job, r); }
    RunsAreSearches(ranking, s, job);
    RowsArePicked(s, job);
    assert forall q :: 0 <= q < |s.requests| ==> !IsOpen(s'.requests[q], job);
  }

  lemma StepKeepsOrder(ranking: seq<Person>, s: State, a: Action, job: nat)
    requires Wf(s) && Orderly(ranking, s, job) && Allowed(ranking, s, a, job)
    ensures Orderly(ranking, Step(s, a), job)
  {
    match a
    case RunStep(r, input) =>
      if r < |s.runs| {
        assert RunWf(s, r, s.runs[r]);
        RunsCanWrite(s, r);
        WorkerStepKeepsOrder(ranking, s, r, input, job);
      }
    case Enqueue(q) =>
      if q < |s.requests| && s.requests[q].Queueing? {
        assert RequestWf(s, s.requests[q]);
        EnqueueKeepsOrder(ranking, s, q, job);
      }
    case AskExtend(user, j) =>
      if j == job { AskKeepsOrder(ranking, s, user, job); } else { QuietStepKeepsOrder(ranking, s, Step(s, a), job); }
    case _ => QuietStepKeepsOrder(ranking, s, Step(s, a), job);
  }

  lemma {:induction false} RunKeepsOrder(ranking: seq<Person>, s: State, actions: seq<Action>, job: nat)
    requires Wf(s) && Orderly(ranking, s, job) && AllAllowed(ranking, s, actions, job)
    ensures Orderly(ranking, Exec(s, actions), job)
    decreases |actions|
  {
    if actions != [] {
      StepKeepsWf(s, actions[0]);
      StepKeepsOrder(ranking, s, actions[0], job);
      RunKeepsOrder(ranking, Step(s, actions[0]), actions[1..], job);
    }
  }

  lemma StartIsOrderly(ranking: seq<Person>, s: State, user: nat, cap: nat, now: int)
    requires Wf(s) && user < |s.users|
    ensures Orderly(ranking, Step(s, StartSearch(user, cap, false, now)), |s.jobs|)
  {
    var s', job := Step(s, StartSearch(user, cap, false, now)), |s.jobs|;
    forall r | 0 <= r < |s.runs| ensures s.runs[r].job != job { assert RunWf(s, r, s.runs[r]); }
    forall q | 0 <= q < |s.requests| ensures !IsOpen(s.requests[q], job) { assert RequestWf(s, s.requests[q]); }
    NobodyPicked(s.runs, job, |s.runs|);
  }

  lemma {:induction false} NobodyPicked(runs: seq<Run>, job: nat, n: nat)
    requires n <= |runs| && forall r :: 0 <= r < |runs| ==> runs[r].job != job
    ensures Picked(runs, job, n) == {}
  {
    if n > 0 { NobodyPicked(runs, job, n - 1); }
  }

  // ── The people on file ────────────────────────────────────────────────

  /** The caps of a job, once a run has been looked at. */
  function NextCaps(caps: seq<nat>, run: Run, job: nat): seq<nat> {
    if run.job == job then caps + [run.cap] else caps
  }

  /** The caps of the job's runs among the first `n`, in order. */
  function CapsOf(runs: seq<Run>, job: nat, n: nat): seq<nat>
    requires n <= |runs|
  {
    if n == 0 then [] else NextCaps(CapsOf(runs, job, n - 1), runs[n - 1], job)
  }

  lemma PeopleAppend(a: seq<Person>, b: seq<Person>)
    ensures People(a + b) == People(a) + People(b)
  {
  }

  lemma CollectOnce(ranking: seq<Person>, caps: seq<nat>, cap: nat)
    ensures var before := Collected(ranking, caps);
      People(Collected(ranking, caps + [cap])) == People(before) + People(Selected(ranking, People(before), cap))
  {
    assert (caps + [cap])[..|caps|] == caps;
    PeopleAppend(Collected(ranking, caps), Selected(ranking, People(Collected(ranking, caps)), cap));
  }

  /** What an orderly run that has finished adds. */
  lemma RunPicks(ranking: seq<Person>, s: State, job: nat, r: nat)
    requires Orderly(ranking, s, job) && AllFinished(s, job) && r < |s.runs| && s.runs[r].job == job
    ensures s.runs[r].candidates == Selected(ranking, Picked(s.runs, job, r), s.runs[r].cap)
  {
    assert RunOrderly(ranking, s, job, r);
    assert Searched(s.runs[r].pc);
  }

  lemma NextAgrees(ranking: seq<Person>, s: State, job: nat, n: nat, caps: seq<nat>)
    requires Orderly(ranking, s, job) && AllFinished(s, job) && n < |s.runs|
    requires Picked(s.runs, job, n) == People(Collected(ranking, caps))
    ensures Picked(s.runs, job, n + 1) == People(Collected(ranking, NextCaps(caps, s.runs[n], job)))
  {
    if s.runs[n].job == job {
      RunPicks(ranking, s, job, n);
      CollectOnce(ranking, caps, s.runs[n].cap);
    }
  }

  lemma NobodyCollected(ranking: seq<Person>)
    ensures People(Collected(ranking, [])) == {}
  {
  }

  /** The caps of the first `n` runs, and that they collect whom those runs have picked. */
  lemma {:induction false} PickedIsCollected(ranking: seq<Person>, s: State, job: nat, n: nat) returns (caps: seq<nat>)
    requires Orderly(ranking, s, job) && AllFinished(s, job) && n <= |s.runs|
    ensures caps == CapsOf(s.runs, job, n)
    ensures Picked(s.runs, job, n) == People(Collected(ranking, caps))
  {
    caps := [];
    NobodyCollected(ranking);
    for k := 0 to n
      invariant caps == CapsOf(s.runs, job, k)
      invariant Picked(s.runs, job, k) == People(Collected(ranking, caps))
    {
      NextAgrees(ranking, s, job, k, caps);
      caps := NextCaps(caps, s.runs[k], job);
    }
  }

  lemma {:induction false} FreshHasNoRepeats(s: seq<Person>, excluded: set<Person>)
    requires NoRepeats(s)
    ensures NoRepeats(Fresh(s, excluded))
  {
    if s != [] {
      var init, last := s[..|s| - 1], s[|s| - 1];
      FreshHasNoRepeats(init, excluded);
      FreshMembers(init, excluded);
      assert forall k :: 0 <= k < |Fresh(init, excluded)| ==> Fresh(init, excluded)[k] in Fresh(init, excluded);
    }
  }

  lemma RowComesFrom(s: State, id: nat)
    requires Wf(s) && id < |s.rows|
    ensures s.rows[id].run < |s.runs| && s.runs[s.rows[id].run].job == s.rows[id].job
    ensures var run := s.runs[s.rows[id].run];
      !run.direct ==>
        && s.rows[id].slot < |run.candidates| == |run.ids| && run.ids[s.rows[id].slot] == Some(id)
        && s.rows[id].person == run.candidates[s.rows[id].slot] && s.rows[id].person !in run.excluded
  {
    var row := s.rows[id];
    assert RowWf(s, id, row);
    assert RunWf(s, row.run, s.runs[row.run]);
    if !s.runs[row.run].direct { assert SlotWf(s, row.run, s.runs[row.run], row.slot); }
  }

  /** Nobody is on file twice for an orderly job. */
  lemma NobodyTwice(ranking: seq<Person>, s: State, job: nat, i: nat, j: nat)
    requires Wf(s) && Orderly(ranking, s, job) && AllFinished(s, job) && NoRepeats(ranking)
    requires i < |s.rows| && j < |s.rows| && i != j && s.rows[i].job == job && s.rows[j].job == job
    ensures s.rows[i].person != s.rows[j].person
  {
    RowComesFrom(s, i);
    RowComesFrom(s, j);
    var a, b := s.rows[i].run, s.rows[j].run;
    assert RunOrderly(ranking, s, job, a) && RunOrderly(ranking, s, job, b);
    PickedMembers(s.runs, job, a, s.rows[j].person);
    PickedMembers(s.runs, job, b, s.rows[i].person);
    if a == b {
      var run := s.runs[a];
      FreshHasNoRepeats(Page(ranking, run.excluded, run.cap), run.excluded);
      assert Searched(run.pc);
    }
  }

  /** From the start of a search, over any interleaving with everything else in which its
      extensions are asked for one after the other and Apollo answers with pages of one
      ranking: when its runs have finished cleanly, the people on file for the job are
      exactly the first c1 + .. + cn of the ranking, up to the page ceiling, each once. */
  lemma JobCollectsAPrefix(ranking: seq<Person>, s: State, user: nat, cap: nat, now: int, actions: seq<Action>)
    requires Wf(s) && user < |s.users| && NoRepeats(ranking)
    requires Wf(Step(s, StartSearch(user, cap, false, now)))
    requires AllAllowed(ranking, Step(s, StartSearch(user, cap, false, now)), actions, |s.jobs|)
    requires AllFinished(Exec(Step(s, StartSearch(user, cap, false, now)), actions), |s.jobs|)
    ensures var t, job := Exec(Step(s, StartSearch(user, cap, false, now)), actions), |s.jobs|;
      && PeopleOf(t.rows, job) == People(Take(ranking, Min(Total(CapsOf(t.runs, job, |t.runs|)), 100)))
      && (forall i, j :: 0 <= i < j < |t.rows| && t.rows[i].job == job && t.rows[j].job == job ==>
            t.rows[i].person != t.rows[j].person)
  {
    var started, job := Step(s, StartSearch(user, cap, false, now)), |s.jobs|;
    StartIsOrderly(ranking, s, user, cap, now);
    RunKeepsOrder(ranking, started, actions, job);
    var t := Exec(started, actions);
    RunsAreSearches(ranking, t, job);
    RowsArePicked(t, job);
    var caps := PickedIsCollected(ranking, t, job, |t.runs|);
    RunsCollectAPrefix(ranking, caps);
    forall i, j | 0 <= i < j < |t.rows| && t.rows[i].job == job && t.rows[j].job == job
      ensures t.rows[i].person != t.rows[j].person
    {
      NobodyTwice(ranking, t, job, i, j);
    }
  }
}
