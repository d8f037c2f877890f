/** Where every Lead Finder credit goes, over any interleaving of search runs,
    grants, cancellations and changes of the unlimited flag. */
module CreditConservation {
  import opened Prelude
  import opened SearchJobs
  import opened SearchJobsInvariant

  // ── The books of one user ─────────────────────────────────────────────

  /** One credit for every enriched row that was paid for. */
  function PaidBy(user: nat): Row -> int {
    (row: Row) => if row.user == user && row.status == Enriched && row.paid then 1 else 0
  }

  /** Credits a run holds in flight or has stranded, minus those it refunded for free. */
  function Held(run: Run): int { AsCount(Holding(run.pc)) + run.stranded - run.minted }

  function HeldBy(user: nat): Run -> int {
    (run: Run) => if run.user == user then Held(run) else 0
  }

  predicate Incremented(phase: Phase) {
    phase == WritingGrant || phase == Settled || phase == Dead(true)
  }

  /** Credits a delivery has added to the balance. */
  function GrantedTo(user: nat): Delivery -> int {
    (d: Delivery) => if d.user == user && Incremented(d.phase) then d.credits else 0
  }

  /** Balance + paid rows + reservations held or stranded - credits granted. */
  function Books(s: State, user: nat): int
    requires user < |s.users|
  {
    s.users[user].credits + Sum(s.rows, PaidBy(user)) + Sum(s.runs, HeldBy(user))
    - Sum(s.deliveries, GrantedTo(user))
  }

  /** The same ledger for one run: what it spent is in its rows or in its hands. */
  function PaidIn(r: nat): Row -> int {
    (row: Row) => if row.run == r && row.status == Enriched && row.paid then 1 else 0
  }

  function RunBooks(s: State, r: nat): int
    requires r < |s.runs|
  {
    s.runs[r].spent - Held(s.runs[r]) - Sum(s.rows, PaidIn(r))
  }

  // ── What one worker step does to each part of the books ───────────────

  lemma SkipPendingSum(s: State, job: nat, weight: Row -> int)
    requires forall row: Row :: row.status != Enriched ==> weight(row) == 0
    ensures Sum(SkipPending(s, job).rows, weight) == Sum(s.rows, weight)
  {
    SumPointwise(SkipPending(s, job).rows, s.rows, weight);
  }

  lemma CreateRowSum(s: State, r: nat, k: nat, weight: Row -> int)
    requires r < |s.runs|
    requires forall row: Row :: row.status != Enriched ==> weight(row) == 0
    ensures Sum(CreateRow(s, r, k).rows, weight) == Sum(s.rows, weight)
  {
    var s' := CreateRow(s, r, k);
    if s'.rows != s.rows {
      SumAppend(s.rows, s'.rows[|s.rows|], weight);
    }
  }

  /** A weight that counts paid enriched rows, `worth` for each row of run `r`. */
  ghost predicate Counts(s: State, r: nat, weight: Row -> int, worth: int)
    requires r < |s.runs|
  {
    && (forall row: Row :: row.status != Enriched ==> weight(row) == 0)
    && (forall row: Row :: row.status == Enriched && row.run == r && row.user == s.runs[r].user ==>
          weight(row) == if row.paid then worth else 0)
  }

  /** The row a run inside its loop is about to write is its own and not enriched yet. */
  ghost predicate CanWrite(s: State, r: nat)
    requires r < |s.runs|
  {
    var run := s.runs[r];
    InLoop(run.pc) && !run.direct ==>
      && run.next < |run.ids| && run.ids[run.next].Some?
      && var id := run.ids[run.next].value;
      && id < |s.rows| && s.rows[id].run == r && s.rows[id].user == run.user && s.rows[id].status != Enriched
  }

  lemma RunsCanWrite(s: State, r: nat)
    requires Wf(s) && r < |s.runs|
    ensures CanWrite(s, r)
  {
    var run := s.runs[r];
    if InLoop(run.pc) && !run.direct {
      assert RunWf(s, r, run);
      LoopFacts(s, r);
      assert SlotWf(s, r, run, run.next);
      assert RowWf(s, run.ids[run.next].value, s.rows[run.ids[run.next].value]);
    }
  }

  /** What the write of a result does besides the row itself. */
  lemma WriteResultShape(s: State, r: nat, status: RowStatus, paid: bool)
    requires r < |s.runs| && InLoop(s.runs[r].pc) && CanWrite(s, r)
    ensures var s' := WriteResult(s, r, status, paid);
      && |s'.runs| == |s.runs|
      && s'.runs[r] == s.runs[r].(next := s.runs[r].next + 1, pc := if s.runs[r].direct then Completing(true)
           else Checking)
      && s' == s.(rows := s'.rows, runs := s.runs[r := s'.runs[r]])
  {
  }

  /** The row a run writes was not enriched before, so all its weight is new. */
  lemma WriteResultSum(s: State, r: nat, status: RowStatus, paid: bool, weight: Row -> int, worth: int)
    requires r < |s.runs| && InLoop(s.runs[r].pc) && CanWrite(s, r)
    requires Counts(s, r, weight, worth)
    ensures Sum(WriteResult(s, r, status, paid).rows, weight)
         == Sum(s.rows, weight) + if status == Enriched && paid then worth else 0
  {
    var run := s.runs[r];
    if run.direct {
      SumAppend(s.rows, Row(run.job, run.user, 0, status, r, 0, paid), weight);
    } else {
      var id := run.ids[run.next].value;
      SumUpdate(s.rows, id, s.rows[id].(status := status, paid := paid), weight);
    }
  }

  /** Does this step turn a charged reservation into an enriched row? */
  function Earned(run: Run, input: Input): int {
    if input.Tick? && run.pc == Recording(true) then 1 else 0
  }

  lemma WorkerStepRows(s: State, r: nat, input: Input, weight: Row -> int, worth: int)
    requires r < |s.runs| && CanWrite(s, r)
    requires s.runs[r].user < |s.users| && s.runs[r].job < |s.jobs|
    requires Counts(s, r, weight, worth)
    ensures Sum(WorkerStep(s, r, input).rows, weight) == Sum(s.rows, weight) + Earned(s.runs[r], input) * worth
  {
    if input.Tick? {
      TickStepRows(s, r, weight, worth);
    } else if input.Slot? {
      CreateRowSum(s, r, input.k, weight);
    }
  }

  lemma TickStepRows(s: State, r: nat, weight: Row -> int, worth: int)
    requires r < |s.runs| && CanWrite(s, r)
    requires s.runs[r].user < |s.users| && s.runs[r].job < |s.jobs|
    requires Counts(s, r, weight, worth)
    ensures Sum(TickStep(s, r).rows, weight) == Sum(s.rows, weight) + Earned(s.runs[r], Tick) * worth
  {
    var run := s.runs[r];
    match run.pc
    case Recording(charged) => WriteResultSum(s, r, Enriched, charged, weight, worth);
    case RecordingMiss => WriteResultSum(s, r, Failed, false, weight, worth);
    case SkippingRest(_) => SkipPendingSum(s, run.job, weight);
    case _ =>
  }

  /** The run's own accounts balance, and what it spends leaves its user's balance. */
  ghost predicate AccountsBalance(s: State, r: nat, s': State, earned: int, user: nat)
    requires r < |s.runs| && user < |s.users|
  {
    && |s'.runs| == |s.runs| && |s'.users| == |s.users|
    && var spent := s'.runs[r].spent - s.runs[r].spent;
    && spent == Held(s'.runs[r]) - Held(s.runs[r]) + earned
    && s'.users[user].credits == s.users[user].credits - (if s.runs[r].user == user then spent else 0)
    && s'.users[user].unlimited == s.users[user].unlimited
  }

  lemma ReserveAccounts(s: State, r: nat, user: nat)
    requires r < |s.runs| && s.runs[r].user < |s.users| && user < |s.users|
    requires s.runs[r].pc.ReadingFlag? || s.runs[r].pc.Decrementing?
    ensures AccountsBalance(s, r, ReserveStep(s, r), 0, user)
  {
  }

  lemma RefundAccounts(s: State, r: nat, user: nat)
    requires r < |s.runs| && s.runs[r].user < |s.users| && user < |s.users|
    requires s.runs[r].pc.ReadingRefundFlag? || s.runs[r].pc.Refunding?
    ensures AccountsBalance(s, r, RefundStep(s, r), 0, user)
  {
  }

  lemma RecordAccounts(s: State, r: nat, user: nat)
    requires r < |s.runs| && CanWrite(s, r) && user < |s.users|
    requires s.runs[r].pc.Recording? || s.runs[r].pc.RecordingMiss?
    ensures var pc := s.runs[r].pc;
      AccountsBalance(s, r, WriteResult(s, r, if pc.Recording? then Enriched else Failed, pc.Recording? && pc.charged),
                      Earned(s.runs[r], Tick), user)
  {
    var pc := s.runs[r].pc;
    WriteResultShape(s, r, if pc.Recording? then Enriched else Failed, pc.Recording? && pc.charged);
  }

  /** The steps that write a status or the rest of the rows. */
  lemma ClosingTickAccounts(s: State, r: nat, user: nat)
    requires r < |s.runs|
    requires s.runs[r].user < |s.users| && s.runs[r].job < |s.jobs| && user < |s.users|
    requires var pc := s.runs[r].pc; pc.SkippingRest? || pc.Completing? || pc.Failing?
    ensures AccountsBalance(s, r, TickStep(s, r), 0, user)
  {
  }

  /** The steps that neither reserve, nor refund, nor write. */
  lemma OtherTickAccounts(s: State, r: nat, user: nat)
    requires r < |s.runs|
    requires s.runs[r].user < |s.users| && s.runs[r].job < |s.jobs| && user < |s.users|
    requires var pc := s.runs[r].pc;
      pc.Searching? || pc.Creating? || pc.Checking? || pc.Enriching? || pc.Auditing? || pc.Finished?
    ensures AccountsBalance(s, r, TickStep(s, r), 0, user)
  {
  }

  lemma TickAccounts(s: State, r: nat, user: nat)
    requires r < |s.runs| && CanWrite(s, r)
    requires s.runs[r].user < |s.users| && s.runs[r].job < |s.jobs| && user < |s.users|
    ensures AccountsBalance(s, r, TickStep(s, r), Earned(s.runs[r], Tick), user)
  {
    var pc := s.runs[r].pc;
    if pc.ReadingFlag? || pc.Decrementing? {
      ReserveAccounts(s, r, user);
    } else if pc.ReadingRefundFlag? || pc.Refunding? {
      RefundAccounts(s, r, user);
    } else if pc.Recording? || pc.RecordingMiss? {
      RecordAccounts(s, r, user);
    } else if pc.SkippingRest? || pc.Completing? || pc.Failing? {
      ClosingTickAccounts(s, r, user);
    } else {
      OtherTickAccounts(s, r, user);
    }
  }

  lemma AnswerAccounts(s: State, r: nat, input: Input, user: nat)
    requires r < |s.runs|
    requires s.runs[r].user < |s.users| && s.runs[r].job < |s.jobs| && user < |s.users|
    requires !input.Tick?
    ensures AccountsBalance(s, r, WorkerStep(s, r, input), 0, user)
  {
  }

  lemma WorkerStepAccounts(s: State, r: nat, input: Input, user: nat)
    requires r < |s.runs| && CanWrite(s, r)
    requires s.runs[r].user < |s.users| && s.runs[r].job < |s.jobs| && user < |s.users|
    ensures AccountsBalance(s, r, WorkerStep(s, r, input), Earned(s.runs[r], input), user)
  {
    if input.Tick? {
      TickAccounts(s, r, user);
      assert WorkerStep(s, r, input) == TickStep(s, r);
    } else {
      AnswerAccounts(s, r, input, user);
    }
  }

  /** A worker step changes its own run, its own user and its own job. */
  ghost predicate OwnChange(s: State, r: nat, s': State)
    requires r < |s.runs| && s.runs[r].job < |s.jobs|
  {
    && |s'.runs| == |s.runs| && s'.runs == s.runs[r := s'.runs[r]]
    && s'.deliveries == s.deliveries && s'.requests == s.requests && s'.ledger == s.ledger
    && s'.runs[r].user == s.runs[r].user && s'.runs[r].job == s.runs[r].job && s'.runs[r].direct == s.runs[r].direct
    && |s'.jobs| == |s.jobs|
    && s'.jobs[s.runs[r].job] == s.jobs[s.runs[r].job].(status := s'.jobs[s.runs[r].job].status)
    && (forall j :: 0 <= j < |s.jobs| && j != s.runs[r].job ==> s'.jobs[j] == s.jobs[j])
  }

  lemma TickStepFrame(s: State, r: nat)
    requires r < |s.runs|
    requires s.runs[r].user < |s.users| && s.runs[r].job < |s.jobs|
    ensures OwnChange(s, r, TickStep(s, r))
  {
  }

  lemma WorkerStepFrame(s: State, r: nat, input: Input)
    requires r < |s.runs|
    requires s.runs[r].user < |s.users| && s.runs[r].job < |s.jobs|
    ensures OwnChange(s, r, WorkerStep(s, r, input))
  {
    if input.Tick? { TickStepFrame(s, r); }
  }

  // ── Conservation ──────────────────────────────────────────────────────

  lemma WorkerStepKeepsBooks(s: State, r: nat, input: Input, user: nat)
    requires Wf(s) && r < |s.runs| && user < |s.users|
    requires s.runs[r].user < |s.users| && s.runs[r].job < |s.jobs|
    ensures |WorkerStep(s, r, input).users| == |s.users|
    ensures Books(WorkerStep(s, r, input), user) == Books(s, user)
  {
    var s' := WorkerStep(s, r, input);
    RunsCanWrite(s, r);
    WorkerStepFrame(s, r, input);
    WorkerStepAccounts(s, r, input, user);
    WorkerStepRows(s, r, input, PaidBy(user), if s.runs[r].user == user then 1 else 0);
    SumUpdate(s.runs, r, s'.runs[r], HeldBy(user));
  }

  lemma DeliveryStepKeepsBooks(s: State, d: nat, throws: bool, user: nat)
    requires d < |s.deliveries| && user < |s.users|
    ensures |DeliveryStep(s, d, throws).users| == |s.users|
    ensures Books(DeliveryStep(s, d, throws), user) == Books(s, user)
  {
    var s' := DeliveryStep(s, d, throws);
    assert s'.deliveries == s.deliveries[d := s'.deliveries[d]];
    SumUpdate(s.deliveries, d, s'.deliveries[d], GrantedTo(user));
  }

  lemma NewRunKeepsBooks(s: State, s': State, user: nat)
    requires user < |s.users| == |s'.users|
    requires s'.users[user].credits == s.users[user].credits && s'.rows == s.rows && s'.deliveries == s.deliveries
    requires s'.runs == s.runs
        || (|s'.runs| == |s.runs| + 1 && s'.runs[..|s.runs|] == s.runs && Held(s'.runs[|s.runs|]) == 0)
    ensures Books(s', user) == Books(s, user)
  {
    if s'.runs != s.runs {
      SumAppend(s.runs, s'.runs[|s.runs|], HeldBy(user));
      assert s'.runs == s.runs + [s'.runs[|s.runs|]];
    }
  }

  lemma RequestStepKeepsBooks(s: State, a: Action, user: nat)
    requires Wf(s) && user < |s.users|
    requires !a.RunStep? && !a.Deliver? && !a.DeliverStep?
    ensures |Step(s, a).users| == |s.users|
    ensures Books(Step(s, a), user) == Books(s, user)
  {
    NewRunKeepsBooks(s, Step(s, a), user);
  }

  lemma RunStepKeepsBooks(s: State, r: nat, input: Input, user: nat)
    requires Wf(s) && user < |s.users|
    ensures |Step(s, RunStep(r, input)).users| == |s.users|
    ensures Books(Step(s, RunStep(r, input)), user) == Books(s, user)
  {
    if r < |s.runs| {
      assert RunWf(s, r, s.runs[r]);
      WorkerStepKeepsBooks(s, r, input, user);
    }
  }

  lemma DeliverKeepsBooks(s: State, who: nat, credits: nat, user: nat)
    requires Wf(s) && user < |s.users|
    ensures |Step(s, Deliver(who, credits)).users| == |s.users|
    ensures Books(Step(s, Deliver(who, credits)), user) == Books(s, user)
  {
    SumAppend(s.deliveries, Delivery(who, credits, Incrementing), GrantedTo(user));
  }

  lemma StepKeepsBooks(s: State, a: Action, user: nat)
    requires Wf(s) && user < |s.users|
    ensures |Step(s, a).users| == |s.users|
    ensures Books(Step(s, a), user) == Books(s, user)
  {
    match a
    case RunStep(r, input) => RunStepKeepsBooks(s, r, input, user);
    case Deliver(who, credits) => DeliverKeepsBooks(s, who, credits, user);
    case DeliverStep(d, throws) =>
      if d < |s.deliveries| { DeliveryStepKeepsBooks(s, d, throws, user); }
    case _ => RequestStepKeepsBooks(s, a, user);
  }

  /** Conservation: no interleaving creates or destroys a credit. Balance, paid
      rows, and what runs hold, stranded or minted always add up to the start
      plus the grants, even while the unlimited flag is toggled at will. */
  lemma {:induction false} CreditsAreConserved(s: State, actions: seq<Action>, user: nat)
    requires Wf(s) && user < |s.users|
    ensures |Exec(s, actions).users| == |s.users|
    ensures Books(Exec(s, actions), user) == Books(s, user)
    ensures Exec(s, actions).users[user].credits >= 0
    decreases |actions|
  {
    if actions != [] {
      StepKeepsWf(s, actions[0]);
      StepKeepsBooks(s, actions[0], user);
      CreditsAreConserved(Step(s, actions[0]), actions[1..], user);
    }
  }

  // ── The accounts of one run ───────────────────────────────────────────

  /** Each run has spent exactly what its paid rows and its hands account for. */
  ghost predicate RunsBalance(s: State) {
    forall r {:trigger RunBooks(s, r)} :: 0 <= r < |s.runs| ==> RunBooks(s, r) == 0
  }

  lemma {:induction false} NoRowsOf(rows: seq<Row>, r: nat)
    requires forall id :: 0 <= id < |rows| ==> rows[id].run != r
    ensures Sum(rows, PaidIn(r)) == 0
  {
    if rows != [] { NoRowsOf(rows[..|rows| - 1], r); }
  }

  lemma WorkerStepKeepsRunBooks(s: State, r: nat, input: Input, q: nat)
    requires r < |s.runs| && q < |s.runs| && CanWrite(s, r)
    requires s.runs[r].user < |s.users| && s.runs[r].job < |s.jobs|
    ensures |WorkerStep(s, r, input).runs| == |s.runs|
    ensures RunBooks(WorkerStep(s, r, input), q) == RunBooks(s, q)
  {
    WorkerStepFrame(s, r, input);
    WorkerStepAccounts(s, r, input, s.runs[r].user);
    WorkerStepRows(s, r, input, PaidIn(q), if q == r then 1 else 0);
  }

  /** A run that is new has spent nothing, and no row is its own. */
  lemma NewRunBalances(s: State, s': State)
    requires Wf(s) && RunsBalance(s) && s'.rows == s.rows
    requires |s.runs| <= |s'.runs| && forall q :: 0 <= q < |s.runs| ==> s'.runs[q] == s.runs[q]
    requires forall q :: |s.runs| <= q < |s'.runs| ==> s'.runs[q].spent == 0 && Held(s'.runs[q]) == 0
    ensures RunsBalance(s')
  {
    forall q | 0 <= q < |s'.runs| ensures RunBooks(s', q) == 0 {
      if q < |s.runs| {
        assert RunBooks(s, q) == 0;
      } else {
        forall id | 0 <= id < |s.rows| ensures s.rows[id].run != q { assert RowWf(s, id, s.rows[id]); }
        NoRowsOf(s.rows, q);
      }
    }
  }

  lemma RunStepKeepsRunsBalance(s: State, r: nat, input: Input)
    requires r < |s.runs| && CanWrite(s, r) && RunsBalance(s)
    requires s.runs[r].user < |s.users| && s.runs[r].job < |s.jobs|
    ensures RunsBalance(WorkerStep(s, r, input))
  {
    WorkerStepFrame(s, r, input);
    forall q | 0 <= q < |WorkerStep(s, r, input).runs| ensures RunBooks(WorkerStep(s, r, input), q) == 0 {
      WorkerStepKeepsRunBooks(s, r, input, q);
    }
  }

  lemma StepKeepsRunsBalance(s: State, a: Action)
    requires Wf(s) && RunsBalance(s)
    ensures RunsBalance(Step(s, a))
  {
    if a.RunStep? && a.run < |s.runs| {
      assert RunWf(s, a.run, s.runs[a.run]);
      RunsCanWrite(s, a.run);
      RunStepKeepsRunsBalance(s, a.run, a.input);
    } else {
      NewRunBalances(s, Step(s, a));
    }
  }

  // ── A user who is metered throughout ──────────────────────────────────

  predicate Free(pc: Pc) {
    pc == Enriching(false) || pc == Recording(false) || pc == ReadingRefundFlag(false) || pc == Refunding(false)
  }

  /** A run of a metered user: every reservation cost a credit, and at most one
      was stranded, by the exception that ended the run. */
  ghost predicate MeteredRun(run: Run) {
    && !Free(run.pc)
    && run.minted == 0
    && run.stranded <= 1
    && (run.stranded == 1 ==> run.pc == Failing || run.pc == Finished(false))
  }

  ghost predicate Metered(s: State, user: nat) {
    && user < |s.users| && !s.users[user].unlimited
    && (forall r :: 0 <= r < |s.runs| && s.runs[r].user == user ==> MeteredRun(s.runs[r]))
    && (forall id :: 0 <= id < |s.rows| && s.rows[id].user == user && s.rows[id].status == Enriched ==> s.rows[id].paid)
  }

  lemma WriteResultKeepsMetered(s: State, r: nat, status: RowStatus, paid: bool, user: nat)
    requires r < |s.runs| && CanWrite(s, r) && Metered(s, user)
    requires InLoop(s.runs[r].pc)
    requires s.runs[r].user == user && status == Enriched ==> paid
    ensures Metered(WriteResult(s, r, status, paid), user)
  {
    WriteResultShape(s, r, status, paid);
  }

  lemma WorkerStepKeepsMetered(s: State, r: nat, input: Input, user: nat)
    requires r < |s.runs| && CanWrite(s, r) && Metered(s, user)
    requires s.runs[r].user < |s.users| && s.runs[r].job < |s.jobs|
    ensures Metered(WorkerStep(s, r, input), user)
  {
    var run := s.runs[r];
    if input.Tick? && run.pc.Recording? {
      WriteResultKeepsMetered(s, r, Enriched, run.pc.charged, user);
      assert WorkerStep(s, r, input) == WriteResult(s, r, Enriched, run.pc.charged);
    } else if input.Tick? && run.pc.RecordingMiss? {
      WriteResultKeepsMetered(s, r, Failed, false, user);
      assert WorkerStep(s, r, input) == WriteResult(s, r, Failed, false);
    } else {
      WorkerStepAccounts(s, r, input, user);
      WorkerStepFrame(s, r, input);
      OtherStepKeepsRows(s, r, input);
      if run.user == user { MeteredRunStays(s, r, input); }
      StillMetered(s, r, WorkerStep(s, r, input), user);
    }
  }

  /** Only a recorded hit enriches a row. */
  ghost predicate NothingEnriched(s: State, s': State) {
    forall id :: 0 <= id < |s'.rows| && s'.rows[id].status == Enriched ==> id < |s.rows| && s'.rows[id] == s.rows[id]
  }

  lemma OtherStepKeepsRows(s: State, r: nat, input: Input)
    requires r < |s.runs|
    requires s.runs[r].user < |s.users| && s.runs[r].job < |s.jobs|
    requires input.Tick? ==> !s.runs[r].pc.Recording? && !s.runs[r].pc.RecordingMiss?
    ensures NothingEnriched(s, WorkerStep(s, r, input))
  {
  }

  lemma StillMetered(s: State, r: nat, s': State, user: nat)
    requires r < |s.runs| && Metered(s, user) && NothingEnriched(s, s')
    requires user < |s'.users| && !s'.users[user].unlimited
    requires |s'.runs| == |s.runs| && s'.runs == s.runs[r := s'.runs[r]] && s'.runs[r].user == s.runs[r].user
    requires s.runs[r].user == user ==> MeteredRun(s'.runs[r])
    ensures Metered(s', user)
  {
  }

  lemma MeteredRunStays(s: State, r: nat, input: Input)
    requires r < |s.runs|
    requires s.runs[r].user < |s.users| && s.runs[r].job < |s.jobs|
    requires input.Tick? ==> !s.runs[r].pc.Recording? && !s.runs[r].pc.RecordingMiss?
    requires MeteredRun(s.runs[r]) && !s.users[s.runs[r].user].unlimited
    ensures |WorkerStep(s, r, input).runs| == |s.runs| && MeteredRun(WorkerStep(s, r, input).runs[r])
  {
  }

  lemma StepKeepsMetered(s: State, a: Action, user: nat)
    requires Wf(s) && Metered(s, user) && a != SetUnlimited(user, true)
    ensures Metered(Step(s, a), user)
  {
    if a.RunStep? && a.run < |s.runs| {
      assert RunWf(s, a.run, s.runs[a.run]);
      RunsCanWrite(s, a.run);
      WorkerStepKeepsMetered(s, a.run, a.input, user);
    }
  }

  lemma {:induction false} ExecKeepsMetered(s: State, actions: seq<Action>, user: nat)
    requires Wf(s) && RunsBalance(s) && Metered(s, user) && SetUnlimited(user, true) !in actions
    ensures Metered(Exec(s, actions), user) && RunsBalance(Exec(s, actions))
    decreases |actions|
  {
    if actions != [] {
      StepKeepsWf(s, actions[0]);
      StepKeepsRunsBalance(s, actions[0]);
      StepKeepsMetered(s, actions[0], user);
      ExecKeepsMetered(Step(s, actions[0]), actions[1..], user);
    }
  }

  // ── What the database shows ───────────────────────────────────────────

  function EnrichedFor(user: nat): Row -> int {
    (row: Row) => if row.user == user && row.status == Enriched then 1 else 0
  }

  function EnrichedBy(r: nat): Row -> int {
    (row: Row) => if row.run == r && row.status == Enriched then 1 else 0
  }

  function InFlightOf(user: nat): Run -> int {
    (run: Run) => if run.user == user then AsCount(Holding(run.pc)) else 0
  }

  function StrandedOf(user: nat): Run -> int {
    (run: Run) => if run.user == user then run.stranded else 0
  }

  lemma {:induction false} HeldSplits(runs: seq<Run>, user: nat)
    requires forall r :: 0 <= r < |runs| && runs[r].user == user ==> runs[r].minted == 0
    ensures Sum(runs, HeldBy(user)) == Sum(runs, InFlightOf(user)) + Sum(runs, StrandedOf(user))
  {
    if runs != [] { HeldSplits(runs[..|runs| - 1], user); }
  }

  lemma {:induction false} SumsAgree(rows: seq<Row>, a: Row -> int, b: Row -> int)
    requires forall id :: 0 <= id < |rows| ==> a(rows[id]) == b(rows[id])
    ensures Sum(rows, a) == Sum(rows, b)
  {
    if rows != [] { SumsAgree(rows[..|rows| - 1], a, b); }
  }

  lemma InitialBooks(s: State, user: nat)
    requires Initial(s) && user < |s.users|
    ensures Wf(s) && RunsBalance(s) && Books(s, user) == s.users[user].credits
    ensures !s.users[user].unlimited ==> Metered(s, user)
  {
  }

  /** For a user who stays metered: balance + enriched rows + credits in flight +
      credits stranded by a failed run = starting balance + credits granted. */
  lemma MeteredConservation(s: State, actions: seq<Action>, user: nat)
    requires Initial(s) && user < |s.users| && !s.users[user].unlimited
    requires SetUnlimited(user, true) !in actions
    ensures Wf(s)
    ensures var t := Exec(s, actions);
      && |t.users| == |s.users|
      && t.users[user].credits + Sum(t.rows, EnrichedFor(user))
         + Sum(t.runs, InFlightOf(user)) + Sum(t.runs, StrandedOf(user))
         == s.users[user].credits + Sum(t.deliveries, GrantedTo(user))
      && (forall r :: 0 <= r < |t.runs| && t.runs[r].user == user && t.runs[r].stranded > 0 ==>
            t.runs[r].stranded == 1 && (t.runs[r].pc == Failing || t.runs[r].pc == Finished(false)))
  {
    InitialBooks(s, user);
    CreditsAreConserved(s, actions, user);
    ExecKeepsMetered(s, actions, user);
    var t := Exec(s, actions);
    HeldSplits(t.runs, user);
    SumsAgree(t.rows, PaidBy(user), EnrichedFor(user));
  }

  function OfRun(r: nat): Row -> int {
    (row: Row) => if row.run == r then 1 else 0
  }

  function SlotsOf(rows: seq<Row>, r: nat): set<nat> {
    set id | 0 <= id < |rows| && rows[id].run == r :: rows[id].slot
  }

  lemma {:induction false} OneSlotEach(rows: seq<Row>, r: nat)
    requires forall i, j :: 0 <= i < j < |rows| && rows[i].run == r && rows[j].run == r ==> rows[i].slot != rows[j].slot
    ensures Sum(rows, OfRun(r)) == |SlotsOf(rows, r)|
  {
    if rows != [] {
      var init, last := rows[..|rows| - 1], rows[|rows| - 1];
      OneSlotEach(init, r);
      assert SlotsOf(rows, r) == SlotsOf(init, r) + if last.run == r then {last.slot} else {};
    }
  }

  lemma {:induction false} SlotsFit(slots: set<nat>, cap: nat)
    requires forall k :: k in slots ==> k < cap
    ensures |slots| <= cap
    decreases cap
  {
    if cap > 0 {
      SlotsFit(slots - {cap - 1}, cap - 1);
    } else {
      assert slots == {};
    }
  }

  /** The rows of a criteria search that ended without an exception. */
  ghost predicate RowsSettled(t: State, r: nat)
    requires r < |t.runs|
  {
    && Sum(t.rows, OfRun(r)) <= t.runs[r].cap
    && (forall id :: 0 <= id < |t.rows| && t.rows[id].run == r ==>
          && t.rows[id].status != Pending
          && t.rows[id].person !in t.runs[r].excluded
          && t.rows[id].slot < t.runs[r].cap)
    && (forall i, j :: 0 <= i < j < |t.rows| && t.rows[i].run == r && t.rows[j].run == r ==>
          t.rows[i].slot != t.rows[j].slot)
  }

  lemma CleanRunRows(t: State, r: nat)
    requires Wf(t) && r < |t.runs| && t.runs[r].pc == Finished(true) && !t.runs[r].direct
    ensures RowsSettled(t, r)
  {
    var run := t.runs[r];
    assert RunWf(t, r, run);
    forall id | 0 <= id < |t.rows| && t.rows[id].run == r
      ensures t.rows[id].status != Pending && t.rows[id].person !in run.excluded && t.rows[id].slot < run.cap
      ensures run.ids[t.rows[id].slot] == Some(id)
    {
      assert RowWf(t, id, t.rows[id]);
      assert SlotWf(t, r, run, t.rows[id].slot);
    }
    OneSlotEach(t.rows, r);
    SlotsFit(SlotsOf(t.rows, r), run.cap);
  }

  lemma CleanRunSpent(t: State, r: nat)
    requires Wf(t) && RunsBalance(t) && r < |t.runs| && t.runs[r].pc == Finished(true)
    requires Metered(t, t.runs[r].user)
    ensures t.runs[r].spent == Sum(t.rows, EnrichedBy(r))
  {
    assert RunBooks(t, r) == 0;
    forall id | 0 <= id < |t.rows| ensures PaidIn(r)(t.rows[id]) == EnrichedBy(r)(t.rows[id]) {
      assert RowWf(t, id, t.rows[id]);
    }
    SumsAgree(t.rows, PaidIn(r), EnrichedBy(r));
  }

  /** A criteria search that ended without an exception: no row of it is pending,
      it made at most `cap` rows, all of people it was not told to exclude, and a
      metered user paid exactly one credit for each enriched row. */
  lemma CleanRunSettles(s: State, actions: seq<Action>, r: nat)
    requires Initial(s)
    ensures Wf(s)
    ensures var t := Exec(s, actions);
      r < |t.runs| && t.runs[r].pc == Finished(true) && !t.runs[r].direct ==> RowsSettled(t, r)
    ensures var t := Exec(s, actions);
      r < |t.runs| && t.runs[r].pc == Finished(true) && t.runs[r].user < |s.users|
      && !s.users[t.runs[r].user].unlimited && SetUnlimited(t.runs[r].user, true) !in actions ==>
        t.runs[r].spent == Sum(t.rows, EnrichedBy(r))
  {
    var t := Exec(s, actions);
    if r < |t.runs| && t.runs[r].pc == Finished(true) {
      var user := t.runs[r].user;
      if !t.runs[r].direct { CleanRunRows(t, r); }
      if user < |s.users| && !s.users[user].unlimited && SetUnlimited(user, true) !in actions {
        InitialBooks(s, user);
        ExecKeepsMetered(s, actions, user);
        CleanRunSpent(t, r);
      }
    }
  }

  // ── The grant ledger ──────────────────────────────────────────────────

  function LedgeredTo(user: nat): Grant -> int {
    (g: Grant) => if g.user == user then g.credits else 0
  }

  /** Credits whose ledger row never got written: the increment went through and
      the delivery is still busy or has thrown. */
  function UnledgeredTo(user: nat): Delivery -> int {
    (d: Delivery) => if d.user == user && (d.phase == WritingGrant || d.phase == Dead(true)) then d.credits else 0
  }

  function LedgerGap(s: State, user: nat): int {
    Sum(s.deliveries, GrantedTo(user)) - Sum(s.ledger, LedgeredTo(user)) - Sum(s.deliveries, UnledgeredTo(user))
  }

  lemma DeliveryMoves(s: State, d: nat, phase: Phase, user: nat)
    requires d < |s.deliveries|
    ensures var before, after := s.deliveries[d], s.deliveries[d].(phase := phase);
      var moved := s.deliveries[d := after];
      && Sum(moved, GrantedTo(user)) == Sum(s.deliveries, GrantedTo(user)) - GrantedTo(user)(before)
           + GrantedTo(user)(after)
      && Sum(moved, UnledgeredTo(user)) == Sum(s.deliveries, UnledgeredTo(user)) - UnledgeredTo(user)(before)
           + UnledgeredTo(user)(after)
  {
    SumUpdate(s.deliveries, d, s.deliveries[d].(phase := phase), GrantedTo(user));
    SumUpdate(s.deliveries, d, s.deliveries[d].(phase := phase), UnledgeredTo(user));
  }

  lemma DeliveryStepKeepsLedgerGap(s: State, d: nat, throws: bool, user: nat)
    requires d < |s.deliveries|
    ensures LedgerGap(DeliveryStep(s, d, throws), user) == LedgerGap(s, user)
  {
    var delivery := s.deliveries[d];
    match delivery.phase
    case Incrementing =>
      DeliveryMoves(s, d, if throws || delivery.user >= |s.users| then Dead(false) else WritingGrant, user);
    case WritingGrant =>
      if throws {
        DeliveryMoves(s, d, Dead(true), user);
      } else {
        DeliveryMoves(s, d, Settled, user);
        SumAppend(s.ledger, Grant(delivery.user, delivery.credits), LedgeredTo(user));
      }
    case _ =>
  }

  lemma StepKeepsLedgerGap(s: State, a: Action, user: nat)
    requires Wf(s)
    ensures LedgerGap(Step(s, a), user) == LedgerGap(s, user)
  {
    match a
    case RunStep(r, input) =>
      if r < |s.runs| {
        assert RunWf(s, r, s.runs[r]);
        WorkerStepFrame(s, r, input);
      }
    case Deliver(who, credits) =>
      SumAppend(s.deliveries, Delivery(who, credits, Incrementing), GrantedTo(user));
      SumAppend(s.deliveries, Delivery(who, credits, Incrementing), UnledgeredTo(user));
    case DeliverStep(d, throws) =>
      if d < |s.deliveries| { DeliveryStepKeepsLedgerGap(s, d, throws, user); }
    case _ =>
  }

  /** The ledger accounts for every credit ever granted, repeats included, except
      those of deliveries caught between their two writes. */
  lemma {:induction false} LedgerAccountsForGrants(s: State, actions: seq<Action>, user: nat)
    requires Wf(s)
    ensures LedgerGap(Exec(s, actions), user) == LedgerGap(s, user)
    decreases |actions|
  {
    if actions != [] {
      StepKeepsWf(s, actions[0]);
      StepKeepsLedgerGap(s, actions[0], user);
      LedgerAccountsForGrants(Step(s, actions[0]), actions[1..], user);
    }
  }
}
