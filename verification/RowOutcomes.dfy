/** What the rows of a search say once its runs have ended, and what an account with
    unlimited access pays, over any interleaving
    (src/leads/apollo-search.processor.ts:91-180 and 237-300,
    src/leads/leads.service.ts:181-230). */
module RowOutcomes {
  import opened Prelude
  import opened SearchJobs
  import opened SearchJobsInvariant
  import opened CreditConservation

  // ── What one worker step does to the rows ─────────────────────────────

  predicate Decided(status: RowStatus) { status == Enriched || status == Failed }

  /** The step records an answer. */
  predicate Records(run: Run, input: Input) { input.Tick? && (run.pc.Recording? || run.pc.RecordingMiss?) }

  function Verdict(run: Run): RowStatus { if run.pc.Recording? then Enriched else Failed }

  /** Row `id` before and after a step of run `r`: a recorded answer decides the run's
      current row, the end of a run skips pending rows, anything else leaves it. */
  ghost predicate RowMoves(s: State, s': State, r: nat, input: Input, id: nat)
    requires r < |s.runs| && id < |s.rows| && id < |s'.rows|
  {
    var run, before, after := s.runs[r], s.rows[id], s'.rows[id];
    && after.run == before.run && after.slot == before.slot && after.person == before.person
    && after.job == before.job && after.user == before.user
    && (if Records(run, input) && !run.direct && before.run == r && before.slot == run.next
        then after.status == Verdict(run)
        else after.status == before.status || (before.status == Pending && after.status == Skipped))
  }

  /** A row a step of run `r` adds: a pending one, or the decided one of a direct match. */
  ghost predicate RowAppears(s: State, r: nat, input: Input, row: Row)
    requires r < |s.runs|
  {
    var run := s.runs[r];
    && row.run == r && row.user == run.user
    && (if Records(run, input) then run.direct && row.slot == run.next && row.status == Verdict(run)
        else row.status == Pending && run.next == 0)
  }

  lemma RecordMoves(s: State, r: nat, status: RowStatus, paid: bool, id: nat)
    requires Wf(s) && r < |s.runs| && id < |s.rows|
    requires s.runs[r].pc.Recording? || s.runs[r].pc.RecordingMiss?
    requires status == Verdict(s.runs[r])
    ensures id < |WriteResult(s, r, status, paid).rows| && RowMoves(s, WriteResult(s, r, status, paid), r, Tick, id)
  {
    RunsCanWrite(s, r);
    assert RunWf(s, r, s.runs[r]) && RowWf(s, id, s.rows[id]);
    if !s.runs[r].direct {
      LoopFacts(s, r);
      assert SlotWf(s, r, s.runs[r], s.runs[r].next);
    }
  }

  predicate Writes(run: Run, input: Input) {
    Records(run, input) || (input.Tick? && run.pc.SkippingRest?) || input.Slot?
  }

  lemma QuietStepKeepsRows(s: State, r: nat, input: Input)
    requires r < |s.runs| && !Writes(s.runs[r], input)
    requires s.runs[r].user < |s.users| && s.runs[r].job < |s.jobs|
    ensures var s' := WorkerStep(s, r, input);
      s'.rows == s.rows && |s'.runs| == |s.runs| && s'.runs[r].next == s.runs[r].next
  {
  }

  /** What the two questions below need to know of a worker step. */
  ghost predicate RowsMove(s: State, s': State, r: nat, input: Input)
    requires r < |s.runs|
  {
    && |s.rows| <= |s'.rows| && |s'.runs| == |s.runs|
    && s'.runs[r].next == s.runs[r].next + (if Records(s.runs[r], input) then 1 else 0)
    && (forall id :: 0 <= id < |s.rows| ==> RowMoves(s, s', r, input, id))
    && (forall id :: |s.rows| <= id < |s'.rows| ==> RowAppears(s, r, input, s'.rows[id]))
  }

  lemma RecordedRows(s: State, r: nat, input: Input)
    requires Wf(s) && r < |s.runs| && Records(s.runs[r], input)
    requires s.runs[r].user < |s.users| && s.runs[r].job < |s.jobs|
    ensures RowsMove(s, WorkerStep(s, r, input), r, input)
  {
    var s', run := WorkerStep(s, r, input), s.runs[r];
    var paid := run.pc.Recording? && run.pc.charged;
    assert RunWf(s, r, run);
    assert s' == WriteResult(s, r, Verdict(run), paid);
    RunsCanWrite(s, r);
    WriteResultShape(s, r, Verdict(run), paid);
    forall id | 0 <= id < |s.rows| ensures RowMoves(s, s', r, input, id) {
      RecordMoves(s, r, Verdict(run), paid, id);
    }
  }

  lemma StepRows(s: State, r: nat, input: Input)
    requires Wf(s) && r < |s.runs|
    requires s.runs[r].user < |s.users| && s.runs[r].job < |s.jobs|
    ensures RowsMove(s, WorkerStep(s, r, input), r, input)
  {
    assert RunWf(s, r, s.runs[r]);
    if Records(s.runs[r], input) {
      RecordedRows(s, r, input);
    } else if !Writes(s.runs[r], input) {
      QuietStepKeepsRows(s, r, input);
    }
  }

  // ── Which rows are decided ────────────────────────────────────────────

  /** A row is enriched or failed exactly if its run has got past its candidate. */
  ghost predicate RowDecided(s: State, row: Row) {
    && row.run < |s.runs|
    && (Decided(row.status) <==> row.slot < s.runs[row.run].next)
    && (s.runs[row.run].direct ==> Decided(row.status))
  }

  ghost predicate AllDecided(s: State) {
    forall id :: 0 <= id < |s.rows| ==> RowDecided(s, s.rows[id])
  }

  lemma WorkerKeepsDecided(s: State, r: nat, input: Input)
    requires Wf(s) && AllDecided(s) && r < |s.runs|
    requires s.runs[r].user < |s.users| && s.runs[r].job < |s.jobs|
    ensures AllDecided(WorkerStep(s, r, input))
  {
    var s' := WorkerStep(s, r, input);
    StepRows(s, r, input);
    WorkerStepFrame(s, r, input);
    forall id | 0 <= id < |s'.rows| ensures RowDecided(s', s'.rows[id]) {
      if id < |s.rows| {
        assert RowMoves(s, s', r, input, id) && RowDecided(s, s.rows[id]);
      } else {
        assert RowAppears(s, r, input, s'.rows[id]);
      }
    }
  }

  lemma StepKeepsDecided(s: State, a: Action)
    requires Wf(s) && AllDecided(s)
    ensures AllDecided(Step(s, a))
  {
    if a.RunStep? && a.run < |s.runs| {
      assert RunWf(s, a.run, s.runs[a.run]);
      WorkerKeepsDecided(s, a.run, a.input);
    } else {
      forall id | 0 <= id < |s.rows| ensures RowDecided(Step(s, a), s.rows[id]) { assert RowDecided(s, s.rows[id]); }
    }
  }

  lemma {:induction false} ExecKeepsDecided(s: State, actions: seq<Action>)
    requires Wf(s) && AllDecided(s)
    ensures Wf(Exec(s, actions)) && AllDecided(Exec(s, actions))
    decreases |actions|
  {
    if actions != [] {
      StepKeepsWf(s, actions[0]);
      StepKeepsDecided(s, actions[0]);
      ExecKeepsDecided(Step(s, actions[0]), actions[1..]);
    }
  }

  /** The row of candidate `k` of a run that has ended. */
  ghost predicate RowOfCandidate(t: State, run: Run, r: nat, k: nat)
    requires k < |run.candidates|
  {
    && k < |run.ids| && run.ids[k].Some? && run.ids[k].value < |t.rows|
    && var row := t.rows[run.ids[k].value];
    && row.run == r && row.person == run.candidates[k]
    && (if k < run.next then row.status == Enriched || row.status == Failed else row.status == Skipped)
  }

  lemma EndedRunRow(t: State, r: nat, k: nat)
    requires Wf(t) && AllDecided(t) && r < |t.runs|
    requires t.runs[r].pc == Finished(true) && !t.runs[r].direct && k < |t.runs[r].candidates|
    ensures RowOfCandidate(t, t.runs[r], r, k)
  {
    var run := t.runs[r];
    assert RunWf(t, r, run);
    assert Ended(run.pc) && None !in run.ids;
    assert run.ids[k] in run.ids;
    assert SlotWf(t, r, run, k);
    assert RowDecided(t, t.rows[run.ids[k].value]);
  }

  /** Over any interleaving, when a criteria search has ended without an exception every
      candidate has its row: decided for those the run got to, skipped for the rest. */
  lemma EndedRunRows(s: State, actions: seq<Action>, r: nat, k: nat)
    requires Initial(s)
    ensures Wf(s)
    ensures var t := Exec(s, actions);
      r < |t.runs| && t.runs[r].pc == Finished(true) && !t.runs[r].direct && k < |t.runs[r].candidates| ==>
        RowOfCandidate(t, t.runs[r], r, k)
  {
    ExecKeepsDecided(s, actions);
    var t := Exec(s, actions);
    if r < |t.runs| && t.runs[r].pc == Finished(true) && !t.runs[r].direct && k < |t.runs[r].candidates| {
      EndedRunRow(t, r, k);
    }
  }

  // ── The answers are recorded ──────────────────────────────────────────

  /** What the enrichment service tells run `r` in this step. */
  function AnswerIn(s: State, a: Action, r: nat): seq<bool> {
    if a.RunStep? && a.run == r && a.input.Hit? && r < |s.runs| && s.runs[r].pc.Enriching? then [a.input.found] else []
  }

  function Answers(s: State, actions: seq<Action>, r: nat): seq<bool>
    requires Wf(s)
    decreases |actions|
  {
    if actions == [] then []
    else
      StepKeepsWf(s, actions[0]);
      AnswerIn(s, actions[0], r) + Answers(Step(s, actions[0]), actions[1..], r)
  }

  predicate BeforeAnswer(pc: Pc) {
    !pc.Recording? && !pc.ReadingRefundFlag? && !pc.Refunding? && !pc.RecordingMiss? && !pc.Failing?
    && pc != Finished(false)
  }

  predicate DealsWithMiss(pc: Pc) { pc.ReadingRefundFlag? || pc.Refunding? || pc.RecordingMiss? }

  /** The run's rows and its position agree with the answers it has had: one per candidate
      it got past, and one more while that answer is being dealt with or was lost in an
      exception. */
  ghost predicate RunTold(s: State, r: nat, answers: seq<bool>)
    requires r < |s.runs|
  {
    var run := s.runs[r];
    && run.next <= |answers| <= run.next + 1
    && (BeforeAnswer(run.pc) ==> |answers| == run.next)
    && (run.pc.Recording? ==> |answers| == run.next + 1 && answers[run.next])
    && (DealsWithMiss(run.pc) ==>
          |answers| == run.next + 1 && !answers[run.next])
    && (forall id :: 0 <= id < |s.rows| && s.rows[id].run == r && s.rows[id].slot < run.next ==>
          s.rows[id].status == if answers[s.rows[id].slot] then Enriched else Failed)
  }

  ghost predicate Told(s: State, r: nat, answers: seq<bool>) {
    if r < |s.runs| then RunTold(s, r, answers) else answers == []
  }

  lemma AnswerMovesPc(s: State, r: nat, input: Input)
    requires r < |s.runs| && !input.Tick?
    requires s.runs[r].user < |s.users| && s.runs[r].job < |s.jobs|
    ensures |WorkerStep(s, r, input).runs| == |s.runs|
    ensures var before, after := s.runs[r].pc, WorkerStep(s, r, input).runs[r].pc;
      if before.Enriching? && input.Hit? then (if input.found then after.Recording? else after.ReadingRefundFlag?)
      else
        && (BeforeAnswer(after) ==> BeforeAnswer(before))
        && (after.Recording? ==> before.Recording?)
        && (DealsWithMiss(after) ==> DealsWithMiss(before))
  {
  }

  /** How a worker step moves the run itself. */
  lemma PcMoves(s: State, r: nat, input: Input)
    requires Wf(s) && r < |s.runs|
    requires s.runs[r].user < |s.users| && s.runs[r].job < |s.jobs|
    ensures |WorkerStep(s, r, input).runs| == |s.runs|
    ensures var before, after := s.runs[r].pc, WorkerStep(s, r, input).runs[r].pc;
      if before.Enriching? && input.Hit? then (if input.found then after.Recording? else after.ReadingRefundFlag?)
      else if Records(s.runs[r], input) then BeforeAnswer(after)
      else
        && (BeforeAnswer(after) ==> BeforeAnswer(before))
        && (after.Recording? ==> before.Recording?)
        && (DealsWithMiss(after) ==> DealsWithMiss(before))
  {
    var run := s.runs[r];
    if Records(run, input) {
      RunsCanWrite(s, r);
      WriteResultShape(s, r, Verdict(run), run.pc.Recording? && run.pc.charged);
    } else if !input.Tick? {
      AnswerMovesPc(s, r, input);
    }
  }

  lemma OwnStepIsTold(s: State, r: nat, input: Input, answers: seq<bool>)
    requires Wf(s) && AllDecided(s) && r < |s.runs| && RunTold(s, r, answers)
    requires s.runs[r].user < |s.users| && s.runs[r].job < |s.jobs|
    ensures var s' := WorkerStep(s, r, input);
      |s'.runs| == |s.runs| && RunTold(s', r, answers + AnswerIn(s, RunStep(r, input), r))
  {
    var s', run, more := WorkerStep(s, r, input), s.runs[r], answers + AnswerIn(s, RunStep(r, input), r);
    PcMoves(s, r, input);
    StepRows(s, r, input);
    forall id | 0 <= id < |s'.rows| && s'.rows[id].run == r && s'.rows[id].slot < s'.runs[r].next
      ensures s'.rows[id].status == if more[s'.rows[id].slot] then Enriched else Failed
    {
      if id < |s.rows| {
        assert RowMoves(s, s', r, input, id) && RowDecided(s, s.rows[id]);
      } else {
        assert RowAppears(s, r, input, s'.rows[id]);
      }
    }
  }

  lemma OtherStepIsTold(s: State, q: nat, input: Input, r: nat, answers: seq<bool>)
    requires Wf(s) && AllDecided(s) && q < |s.runs| && r < |s.runs| && q != r && RunTold(s, r, answers)
    requires s.runs[q].user < |s.users| && s.runs[q].job < |s.jobs|
    ensures var s' := WorkerStep(s, q, input); |s'.runs| == |s.runs| && RunTold(s', r, answers)
  {
    var s' := WorkerStep(s, q, input);
    StepRows(s, q, input);
    WorkerStepFrame(s, q, input);
    assert forall id :: |s.rows| <= id < |s'.rows| ==> s'.rows[id].run == q by {
      assert forall id :: |s.rows| <= id < |s'.rows| ==> RowAppears(s, q, input, s'.rows[id]);
    }
    forall id | 0 <= id < |s'.rows| && s'.rows[id].run == r && s'.rows[id].slot < s'.runs[r].next
      ensures s'.rows[id].status == if answers[s'.rows[id].slot] then Enriched else Failed
    {
      assert RowMoves(s, s', q, input, id) && RowDecided(s, s.rows[id]);
    }
  }

  /** Anything but a worker step leaves rows and runs alone, or adds a run without rows. */
  lemma RequestStepIsTold(s: State, a: Action, r: nat, answers: seq<bool>)
    requires Wf(s) && Told(s, r, answers) && !(a.RunStep? && a.run < |s.runs|)
    ensures Told(Step(s, a), r, answers)
  {
    if r == |s.runs| {
      forall id | 0 <= id < |s.rows| ensures s.rows[id].run < r { assert RowWf(s, id, s.rows[id]); }
    }
  }

  lemma StepIsTold(s: State, a: Action, r: nat, answers: seq<bool>)
    requires Wf(s) && AllDecided(s)
    requires Told(s, r, answers)
    ensures Told(Step(s, a), r, answers + AnswerIn(s, a, r))
  {
    if a.RunStep? && a.run < |s.runs| {
      assert RunWf(s, a.run, s.runs[a.run]);
      WorkerStepFrame(s, a.run, a.input);
      if r < |s.runs| {
        if a.run == r { OwnStepIsTold(s, r, a.input, answers); }
        else { OtherStepIsTold(s, a.run, a.input, r, answers); }
      }
    } else {
      RequestStepIsTold(s, a, r, answers);
    }
  }

  lemma AnswersUnroll(s: State, actions: seq<Action>, r: nat, answers: seq<bool>)
    requires Wf(s) && actions != []
    ensures Wf(Step(s, actions[0])) && Exec(s, actions) == Exec(Step(s, actions[0]), actions[1..])
    ensures answers + Answers(s, actions, r)
         == answers + AnswerIn(s, actions[0], r) + Answers(Step(s, actions[0]), actions[1..], r)
  {
    StepKeepsWf(s, actions[0]);
  }

  lemma {:induction false} RunIsTold(s: State, actions: seq<Action>, r: nat, answers: seq<bool>)
    requires Wf(s) && AllDecided(s) && Told(s, r, answers)
    ensures Told(Exec(s, actions), r, answers + Answers(s, actions, r))
    decreases |actions|
  {
    if actions == [] {
      assert answers + [] == answers;
    } else {
      var s' := Step(s, actions[0]);
      AnswersUnroll(s, actions, r, answers);
      StepKeepsDecided(s, actions[0]);
      StepIsTold(s, actions[0], r, answers);
      RunIsTold(s', actions[1..], r, answers + AnswerIn(s, actions[0], r));
    }
  }

  /** Over any interleaving the k-th row of a run reads what the k-th answer of the
      enrichment service to that run was, hit or miss. Only the last answer can be
      missing, and only when an exception ended the run before it was written. */
  lemma AnswersAreRecorded(s: State, actions: seq<Action>, r: nat)
    requires Initial(s)
    ensures Wf(s)
    ensures var t, answers := Exec(s, actions), Answers(s, actions, r);
      r < |t.runs| ==>
        && (t.runs[r].pc == Finished(true) ==> |answers| == t.runs[r].next)
        && t.runs[r].next <= |answers| <= t.runs[r].next + 1
        && (forall id :: 0 <= id < |t.rows| && t.rows[id].run == r && t.rows[id].slot < t.runs[r].next ==>
              t.rows[id].status == if answers[t.rows[id].slot] then Enriched else Failed)
        && (forall id :: 0 <= id < |t.rows| && t.rows[id].run == r && t.rows[id].slot >= t.runs[r].next ==>
              t.rows[id].status == Pending || t.rows[id].status == Skipped)
  {
    RunIsTold(s, actions, r, []);
    ExecKeepsDecided(s, actions);
    var t := Exec(s, actions);
    assert [] + Answers(s, actions, r) == Answers(s, actions, r);
    if r < |t.runs| {
      forall id | 0 <= id < |t.rows| && t.rows[id].run == r && t.rows[id].slot >= t.runs[r].next
        ensures t.rows[id].status == Pending || t.rows[id].status == Skipped
      {
        assert RowDecided(t, t.rows[id]);
      }
    }
  }

  // ── Unlimited accounts ────────────────────────────────────────────────

  /** A run that has taken nothing and holds nothing. */
  predicate PaysNothing(run: Run) {
    && !Holding(run.pc) && run.pc != Decrementing && !run.pc.Refunding?
    && run.stranded == 0 && run.minted == 0
  }

  ghost predicate Unmetered(s: State, user: nat) {
    && user < |s.users| && s.users[user].unlimited
    && (forall r :: 0 <= r < |s.runs| && s.runs[r].user == user ==> PaysNothing(s.runs[r]))
    && (forall id :: 0 <= id < |s.rows| && s.rows[id].user == user && s.rows[id].status == Enriched ==>
          !s.rows[id].paid)
  }

  lemma WorkerKeepsUnmetered(s: State, r: nat, input: Input, user: nat)
    requires r < |s.runs| && CanWrite(s, r) && Unmetered(s, user)
    requires s.runs[r].user < |s.users| && s.runs[r].job < |s.jobs|
    ensures Unmetered(WorkerStep(s, r, input), user)
  {
    var s', run := WorkerStep(s, r, input), s.runs[r];
    WorkerStepAccounts(s, r, input, user);
    WorkerStepFrame(s, r, input);
    if Records(run, input) {
      WriteResultShape(s, r, Verdict(run), run.pc.Recording? && run.pc.charged);
    } else {
      OtherStepKeepsRows(s, r, input);
    }
  }

  lemma StepKeepsUnmetered(s: State, a: Action, user: nat)
    requires Wf(s) && Unmetered(s, user) && a != SetUnlimited(user, false)
    ensures Unmetered(Step(s, a), user)
  {
    if a.RunStep? && a.run < |s.runs| {
      assert RunWf(s, a.run, s.runs[a.run]);
      RunsCanWrite(s, a.run);
      WorkerKeepsUnmetered(s, a.run, a.input, user);
    }
  }

  lemma {:induction false} ExecKeepsUnmetered(s: State, actions: seq<Action>, user: nat)
    requires Wf(s) && Unmetered(s, user) && SetUnlimited(user, false) !in actions
    ensures Unmetered(Exec(s, actions), user)
    decreases |actions|
  {
    if actions != [] {
      StepKeepsWf(s, actions[0]);
      StepKeepsUnmetered(s, actions[0], user);
      ExecKeepsUnmetered(Step(s, actions[0]), actions[1..], user);
    }
  }

  lemma {:induction false} NothingHeld(runs: seq<Run>, user: nat)
    requires forall r :: 0 <= r < |runs| && runs[r].user == user ==> PaysNothing(runs[r])
    ensures Sum(runs, HeldBy(user)) == 0
  {
    if runs != [] { NothingHeld(runs[..|runs| - 1], user); }
  }

  lemma {:induction false} NothingPaid(rows: seq<Row>, user: nat)
    requires forall id :: 0 <= id < |rows| && rows[id].user == user && rows[id].status == Enriched ==> !rows[id].paid
    ensures Sum(rows, PaidBy(user)) == 0
  {
    if rows != [] { NothingPaid(rows[..|rows| - 1], user); }
  }

  /** An account that stays unlimited is neither charged nor refunded by any search: its
      balance moves by the grants alone. */
  lemma UnlimitedIsFree(s: State, actions: seq<Action>, user: nat)
    requires Initial(s) && user < |s.users| && s.users[user].unlimited
    requires SetUnlimited(user, false) !in actions
    ensures Wf(s)
    ensures var t := Exec(s, actions);
      && |t.users| == |s.users|
      && t.users[user].credits == s.users[user].credits + Sum(t.deliveries, GrantedTo(user))
  {
    InitialBooks(s, user);
    CreditsAreConserved(s, actions, user);
    ExecKeepsUnmetered(s, actions, user);
    NothingHeld(Exec(s, actions).runs, user);
    NothingPaid(Exec(s, actions).rows, user);
  }
}
