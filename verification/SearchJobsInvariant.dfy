/** Every interleaving keeps the store well-formed: balances stay non-negative,
    each row belongs to exactly one run and candidate, and a run that ended
    without an exception has no pending row left. */
module SearchJobsInvariant {
  import opened Prelude
  import opened OverFetch
  import opened SearchJobs

  // ── One lemma per database operation ──────────────────────────────────

  /** The frame of a change to one run: rows, other runs and requests stay well-formed. */
  lemma SetRunKeepsWf(s: State, r: nat, run': Run)
    requires Wf(s) && r < |s.runs|
    requires RunWf(s, r, run')
    requires var run := s.runs[r]; run'.user == run.user && run'.job == run.job && run'.direct == run.direct
    requires run'.ids == s.runs[r].ids || (s.runs[r].ids == [] && !run'.direct)
    requires run'.next >= s.runs[r].next
    ensures Wf(SetRun(s, r, run'))
  {
    var s' := SetRun(s, r, run');
    forall id | 0 <= id < |s'.rows| ensures RowWf(s', id, s'.rows[id]) {
      assert RowWf(s, id, s.rows[id]);
    }
    forall q | 0 <= q < |s'.runs| ensures RunWf(s', q, s'.runs[q]) {
      assert RunWf(s, q, if q == r then run' else s.runs[q]);
      assert forall k :: 0 <= k < |s'.runs[q].ids| ==> (SlotWf(s', q, s'.runs[q], k) <==> SlotWf(s, q, s'.runs[q], k));
    }
    forall q | 0 <= q < |s'.requests| ensures RequestWf(s', s'.requests[q]) {
      assert RequestWf(s, s.requests[q]);
    }
  }

  /** Changes to users, statuses, deliveries and appended jobs, requests or fresh
      runs: everything the invariant says about existing rows and runs carries over. */
  lemma OutsideChangeKeepsWf(s: State, s': State)
    requires Wf(s)
    requires s'.rows == s.rows
    requires |s.users| <= |s'.users| && forall u :: 0 <= u < |s'.users| ==> s'.users[u].credits >= 0
    requires |s.jobs| <= |s'.jobs|
    requires forall j :: 0 <= j < |s.jobs| ==> s'.jobs[j].user == s.jobs[j].user
    requires forall j :: |s.jobs| <= j < |s'.jobs| ==> s'.jobs[j].user < |s'.users|
    requires |s.runs| <= |s'.runs| && forall r :: 0 <= r < |s.runs| ==> s'.runs[r] == s.runs[r]
    requires forall r {:trigger s'.runs[r]} :: |s.runs| <= r < |s'.runs| ==>
               exists user: nat, job: nat, direct: bool, cap: nat, excluded: set<Person> ::
                 s'.runs[r] == NewRun(user, job, direct, cap, excluded) &&
                 user < |s'.users| && job < |s'.jobs| && s'.jobs[job].user == user
    requires forall q :: 0 <= q < |s'.requests| ==> RequestWf(s', s'.requests[q])
    ensures Wf(s')
  {
    forall id | 0 <= id < |s'.rows| ensures RowWf(s', id, s'.rows[id]) {
      assert RowWf(s, id, s.rows[id]);
    }
    forall r | 0 <= r < |s'.runs| ensures RunWf(s', r, s'.runs[r]) {
      if r < |s.runs| {
        assert RunWf(s, r, s.runs[r]);
        assert forall k :: 0 <= k < |s.runs[r].ids| ==> (SlotWf(s', r, s.runs[r], k) <==> SlotWf(s, r, s.runs[r], k));
      }
    }
  }

  lemma RequestsCarryOver(s: State, s': State)
    requires Wf(s)
    requires |s.jobs| <= |s'.jobs| && forall j :: 0 <= j < |s.jobs| ==> s'.jobs[j].user == s.jobs[j].user
    ensures forall q :: 0 <= q < |s.requests| ==> RequestWf(s', s.requests[q])
  {
    forall q | 0 <= q < |s.requests| ensures RequestWf(s', s.requests[q]) {
      assert RequestWf(s, s.requests[q]);
    }
  }

  lemma AddCreditsKeepsWf(s: State, user: nat, amount: int)
    requires Wf(s) && user < |s.users|
    requires s.users[user].credits + amount >= 0
    ensures Wf(AddCredits(s, user, amount))
  {
    RequestsCarryOver(s, AddCredits(s, user, amount));
    OutsideChangeKeepsWf(s, AddCredits(s, user, amount));
  }

  lemma SetStatusKeepsWf(s: State, job: nat, status: JobStatus)
    requires Wf(s) && job < |s.jobs|
    ensures Wf(SetStatus(s, job, status))
  {
    RequestsCarryOver(s, SetStatus(s, job, status));
    OutsideChangeKeepsWf(s, SetStatus(s, job, status));
  }

  lemma SkipPendingKeepsWf(s: State, job: nat)
    requires Wf(s)
    ensures Wf(SkipPending(s, job))
    ensures forall id :: 0 <= id < |s.rows| && s.rows[id].job == job ==> SkipPending(s, job).rows[id].status != Pending
  {
    var s' := SkipPending(s, job);
    forall id | 0 <= id < |s'.rows| ensures RowWf(s', id, s'.rows[id]) {
      assert RowWf(s, id, s.rows[id]);
    }
    forall r | 0 <= r < |s'.runs| ensures RunWf(s', r, s'.runs[r]) {
      assert RunWf(s, r, s.runs[r]);
      forall k | 0 <= k < |s.runs[r].ids| ensures SlotWf(s', r, s'.runs[r], k) {
        assert SlotWf(s, r, s.runs[r], k);
      }
    }
    RequestsCarryOver(s, s');
  }

  lemma CreateRowKeepsWf(s: State, r: nat, k: nat)
    requires Wf(s) && r < |s.runs|
    requires !s.runs[r].direct
    requires var pc := s.runs[r].pc; pc == Creating || pc == Failing || pc == Finished(false)
    ensures Wf(CreateRow(s, r, k))
  {
    var s' := CreateRow(s, r, k);
    var run := s.runs[r];
    assert RunWf(s, r, run);
    if s' != s {
      forall id | 0 <= id < |s'.rows| ensures RowWf(s', id, s'.rows[id]) {
        if id < |s.rows| { assert RowWf(s, id, s.rows[id]); }
      }
      forall q | 0 <= q < |s'.runs| ensures RunWf(s', q, s'.runs[q]) {
        assert RunWf(s, q, s.runs[q]);
        forall j | 0 <= j < |s'.runs[q].ids| ensures SlotWf(s', q, s'.runs[q], j) {
          assert SlotWf(s, q, s.runs[q], j);
        }
      }
      RequestsCarryOver(s, s');
    }
  }

  lemma AppendResultKeepsWf(s: State, r: nat, status: RowStatus, paid: bool)
    requires Wf(s) && r < |s.runs|
    requires s.runs[r].direct && InLoop(s.runs[r].pc)
    requires status == Enriched || status == Failed
    ensures Wf(WriteResult(s, r, status, paid))
  {
    var s' := WriteResult(s, r, status, paid);
    assert RunWf(s, r, s.runs[r]);
    forall id | 0 <= id < |s'.rows| ensures RowWf(s', id, s'.rows[id]) {
      if id < |s.rows| { assert RowWf(s, id, s.rows[id]); }
    }
    forall q | 0 <= q < |s'.runs| ensures RunWf(s', q, s'.runs[q]) {
      assert RunWf(s, q, s.runs[q]);
      forall j | 0 <= j < |s'.runs[q].ids| ensures SlotWf(s', q, s'.runs[q], j) {
        assert SlotWf(s, q, s.runs[q], j);
      }
    }
    RequestsCarryOver(s, s');
  }

  lemma UpdateResultKeepsWf(s: State, r: nat, status: RowStatus, paid: bool)
    requires Wf(s) && r < |s.runs|
    requires !s.runs[r].direct && InLoop(s.runs[r].pc)
    requires status == Enriched || status == Failed
    ensures Wf(WriteResult(s, r, status, paid))
    ensures var s' := WriteResult(s, r, status, paid);
      && |s'.rows| == |s.rows|
      && (forall id :: 0 <= id < |s.rows| && !(s.rows[id].run == r && s.rows[id].slot == s.runs[r].next) ==>
            s'.rows[id] == s.rows[id])
      && (exists id :: 0 <= id < |s.rows| && s.rows[id].run == r && s.rows[id].slot == s.runs[r].next
            && s.rows[id].status != Enriched
            && s'.rows[id] == s.rows[id].(status := status, paid := paid))
  {
    var s' := WriteResult(s, r, status, paid);
    var run := s.runs[r];
    LoopFacts(s, r);
    assert SlotWf(s, r, run, run.next);
    var id' := run.ids[run.next].value;
    assert s'.rows == s.rows[id' := s.rows[id'].(status := status, paid := paid)];
    forall id | 0 <= id < |s'.rows| ensures RowWf(s', id, s'.rows[id]) {
      assert RowWf(s, id, s.rows[id]);
    }
    forall q | 0 <= q < |s'.runs| ensures RunWf(s', q, s'.runs[q]) {
      assert RunWf(s, q, s.runs[q]);
      forall j | 0 <= j < |s'.runs[q].ids| ensures SlotWf(s', q, s'.runs[q], j) {
        assert SlotWf(s, q, s.runs[q], j);
      }
    }
    RequestsCarryOver(s, s');
  }

  lemma LoopFacts(s: State, r: nat)
    requires Wf(s) && r < |s.runs|
    requires InLoop(s.runs[r].pc) && !s.runs[r].direct
    ensures s.runs[r].next < |s.runs[r].candidates| == |s.runs[r].ids| && None !in s.runs[r].ids
  {
    assert RunWf(s, r, s.runs[r]);
  }

  // ── Worker steps ──────────────────────────────────────────────────────

  lemma SearchStepKeepsWf(s: State, r: nat, people: seq<Person>)
    requires Wf(s) && r < |s.runs|
    ensures Wf(SearchStep(s, r, people))
  {
    var run := s.runs[r];
    assert RunWf(s, r, run);
    if run.pc == Searching {
      var candidates := Candidates(people, run.excluded, run.cap);
      var run' := SearchStep(s, r, people).runs[r];
      assert run.ids == [];
      if candidates == [] {
        assert run'.ids == [] && RunWf(s, r, run');
      } else {
        assert forall k :: 0 <= k < |run'.ids| ==> run'.ids[k] == None && SlotWf(s, r, run', k);
        assert RunWf(s, r, run');
      }
      SetRunKeepsWf(s, r, run');
    }
  }

  lemma ThrowStepKeepsWf(s: State, r: nat)
    requires Wf(s) && r < |s.runs|
    ensures Wf(ThrowStep(s, r))
  {
    var run := s.runs[r];
    assert RunWf(s, r, run);
    var s' := ThrowStep(s, r);
    forall k | 0 <= k < |run.ids| ensures SlotWf(s, r, s'.runs[r], k) {
      assert SlotWf(s, r, run, k);
    }
    SetRunKeepsWf(s, r, s'.runs[r]);
  }

  /** Moving a run to a pc that claims nothing new about its rows. */
  lemma MoveKeepsWf(s: State, r: nat, run': Run)
    requires Wf(s) && r < |s.runs|
    requires var run := s.runs[r];
      run' == run.(pc := run'.pc, calls := run'.calls, spent := run'.spent, stranded := run'.stranded,
          minted := run'.minted)
    requires Ended(run'.pc) ==> Ended(s.runs[r].pc) || s.runs[r].ids == []
    requires RunWf(s, r, run') || (run'.direct ==> InLoop(s.runs[r].pc) && (InLoop(run'.pc) || Ended(run'.pc)))
    requires !run'.direct ==>
      var run := s.runs[r];
      && (InLoop(run'.pc) ==> run.next < |run.candidates|)
      && !run'.pc.Searching? && !run'.pc.Creating?
      && None !in run.ids
    ensures Wf(SetRun(s, r, run'))
  {
    var run := s.runs[r];
    assert RunWf(s, r, run);
    forall k | 0 <= k < |run.ids| ensures SlotWf(s, r, run', k) {
      assert SlotWf(s, r, run, k);
    }
    SetRunKeepsWf(s, r, run');
  }

  lemma CheckingKeepsWf(s: State, r: nat)
    requires Wf(s) && r < |s.runs|
    requires s.runs[r].user < |s.users| && s.runs[r].job < |s.jobs|
    requires s.runs[r].pc.Checking?
    ensures Wf(TickStep(s, r))
  {
    var run := s.runs[r];
    assert RunWf(s, r, run);
    var run' := TickStep(s, r).runs[r];
    forall k | 0 <= k < |run.ids| ensures SlotWf(s, r, run', k) {
      assert SlotWf(s, r, run, k);
    }
    SetRunKeepsWf(s, r, run');
  }

  lemma LoopTickKeepsWf(s: State, r: nat)
    requires Wf(s) && r < |s.runs|
    requires s.runs[r].user < |s.users| && s.runs[r].job < |s.jobs|
    requires InLoop(s.runs[r].pc)
    ensures Wf(TickStep(s, r))
  {
    var run := s.runs[r];
    if !run.direct { LoopFacts(s, r); }
    match run.pc
    case Enriching(_) =>
    case ReadingFlag => MoveKeepsWf(s, r, TickStep(s, r).runs[r]);
    case Decrementing =>
      if s.users[run.user].credits > 0 {
        AddCreditsKeepsWf(s, run.user, -1);
        MoveKeepsWf(AddCredits(s, run.user, -1), r, TickStep(s, r).runs[r]);
      } else {
        OutOfCreditsKeepsWf(s, r);
      }
    case Recording(charged) =>
      if run.direct { AppendResultKeepsWf(s, r, Enriched, charged); }
          else { UpdateResultKeepsWf(s, r, Enriched, charged); }
    case ReadingRefundFlag(_) => MoveKeepsWf(s, r, TickStep(s, r).runs[r]);
    case Refunding(_) =>
      AddCreditsKeepsWf(s, run.user, 1);
      MoveKeepsWf(AddCredits(s, run.user, 1), r, TickStep(s, r).runs[r]);
    case RecordingMiss =>
      if run.direct { AppendResultKeepsWf(s, r, Failed, false); } else { UpdateResultKeepsWf(s, r, Failed, false); }
  }

  lemma OutOfCreditsKeepsWf(s: State, r: nat)
    requires Wf(s) && r < |s.runs|
    requires s.runs[r].user < |s.users| && s.runs[r].job < |s.jobs|
    requires s.runs[r].pc.Decrementing? && s.users[s.runs[r].user].credits == 0
    ensures Wf(TickStep(s, r))
  {
    var run := s.runs[r];
    var run' := TickStep(s, r).runs[r];
    assert RunWf(s, r, run);
    if !run.direct { LoopFacts(s, r); }
    forall k | 0 <= k < |run.ids| ensures SlotWf(s, r, run', k) {
      assert SlotWf(s, r, run, k);
    }
    SetRunKeepsWf(s, r, run');
  }

  lemma SkippingKeepsWf(s: State, r: nat)
    requires Wf(s) && r < |s.runs|
    requires s.runs[r].user < |s.users| && s.runs[r].job < |s.jobs|
    requires s.runs[r].pc.SkippingRest?
    ensures Wf(TickStep(s, r))
  {
    var run := s.runs[r];
    var t := SkipPending(s, run.job);
    var run' := TickStep(s, r).runs[r];
    SkipPendingKeepsWf(s, run.job);
    assert RunWf(t, r, run);
    forall k | 0 <= k < |run.ids| ensures SlotWf(t, r, run', k) {
      assert SlotWf(t, r, run, k);
      if run.ids[k].Some? { assert RowWf(t, run.ids[k].value, t.rows[run.ids[k].value]); }
    }
    SetRunKeepsWf(t, r, run');
  }

  lemma FailingKeepsWf(s: State, r: nat)
    requires Wf(s) && r < |s.runs|
    requires s.runs[r].user < |s.users| && s.runs[r].job < |s.jobs|
    requires s.runs[r].pc.Failing?
    ensures Wf(TickStep(s, r))
  {
    var run := s.runs[r];
    var t := SetStatus(s, run.job, FAILED);
    SetStatusKeepsWf(s, run.job, FAILED);
    assert RunWf(t, r, run);
    var run' := run.(pc := Finished(false));
    forall k | 0 <= k < |run.ids| ensures SlotWf(t, r, run', k) {
      assert SlotWf(t, r, run, k);
    }
    SetRunKeepsWf(t, r, run');
  }

  lemma TickStepKeepsWf(s: State, r: nat)
    requires Wf(s) && r < |s.runs|
    requires s.runs[r].user < |s.users| && s.runs[r].job < |s.jobs|
    ensures Wf(TickStep(s, r))
  {
    var run := s.runs[r];
    if InLoop(run.pc) {
      LoopTickKeepsWf(s, r);
    } else {
      match run.pc
      case Searching =>
      case Finished(_) =>
      case Creating =>
        assert RunWf(s, r, run);
        if None !in run.ids { MoveKeepsWf(s, r, run.(pc := Checking)); }
      case Checking => CheckingKeepsWf(s, r);
      case SkippingRest(_) => SkippingKeepsWf(s, r);
      case Completing(audited) =>
        SetStatusKeepsWf(s, run.job, COMPLETED);
        EndedStaysEnded(SetStatus(s, run.job, COMPLETED), r, run.(pc := if audited then Auditing else Finished(true)));
      case Auditing => EndedStaysEnded(s, r, run.(pc := Finished(true)));
      case Failing => FailingKeepsWf(s, r);
    }
  }

  lemma EndedStaysEnded(s: State, r: nat, run': Run)
    requires Wf(s) && r < |s.runs|
    requires Ended(s.runs[r].pc) && Ended(run'.pc) && run' == s.runs[r].(pc := run'.pc)
    ensures Wf(SetRun(s, r, run'))
  {
    assert RunWf(s, r, s.runs[r]);
    forall k | 0 <= k < |run'.ids| ensures SlotWf(s, r, run', k) {
      assert SlotWf(s, r, s.runs[r], k);
    }
    SetRunKeepsWf(s, r, run');
  }

  lemma WorkerStepKeepsWf(s: State, r: nat, input: Input)
    requires Wf(s) && r < |s.runs|
    requires s.runs[r].user < |s.users| && s.runs[r].job < |s.jobs|
    ensures Wf(WorkerStep(s, r, input))
  {
    var run := s.runs[r];
    assert RunWf(s, r, run);
    match input
    case Throw => ThrowStepKeepsWf(s, r);
    case Found(people) => SearchStepKeepsWf(s, r, people);
    case Slot(k) =>
      if run.pc == Creating || run.pc == Failing || run.pc == Finished(false) {
        if !run.direct { CreateRowKeepsWf(s, r, k); }
      }
    case Hit(_) =>
      if run.pc.Enriching? && !run.direct { LoopFacts(s, r); }
      if run.pc.Enriching? { MoveKeepsWf(s, r, WorkerStep(s, r, input).runs[r]); }
    case Tick => TickStepKeepsWf(s, r);
  }

  // ── The whole system ──────────────────────────────────────────────────

  lemma StartKeepsWf(s: State, user: nat, cap: nat, direct: bool, now: int)
    requires Wf(s)
    ensures Wf(AiSearch(s, user, cap, direct, now))
  {
    RequestsCarryOver(s, AiSearch(s, user, cap, direct, now));
    OutsideChangeKeepsWf(s, AiSearch(s, user, cap, direct, now));
  }

  lemma ReopenKeepsWf(s: State, q: nat, cap: nat)
    requires Wf(s) && q < |s.requests| && s.requests[q].Extend?
    requires RequestWf(s, s.requests[q])
    ensures Wf(ReopenJob(s, q, cap))
  {
    RequestsCarryOver(s, ReopenJob(s, q, cap));
    OutsideChangeKeepsWf(s, ReopenJob(s, q, cap));
  }

  lemma EnqueueKeepsWf(s: State, q: nat)
    requires Wf(s) && q < |s.requests| && s.requests[q].Queueing?
    requires RequestWf(s, s.requests[q])
    ensures Wf(QueueRun(s, q))
  {
    var s', request := QueueRun(s, q), s.requests[q];
    assert s'.runs[|s.runs|] ==
        NewRun(request.user, request.job, s.jobs[request.job].direct, request.cap, request.excluded);
    RequestsCarryOver(s, s');
    OutsideChangeKeepsWf(s, s');
  }

  lemma CancelKeepsWf(s: State, q: nat)
    requires Wf(s) && q < |s.requests| && s.requests[q].Cancel?
    requires RequestWf(s, s.requests[q])
    ensures Wf(CancelJob(s, q))
  {
    RequestsCarryOver(s, CancelJob(s, q));
    OutsideChangeKeepsWf(s, CancelJob(s, q));
  }

  lemma AskKeepsWf(s: State, request: Request)
    requires Wf(s) && RequestWf(s, request)
    ensures Wf(s.(requests := s.requests + [request]))
  {
    var s' := s.(requests := s.requests + [request]);
    RequestsCarryOver(s, s');
    OutsideChangeKeepsWf(s, s');
  }

  lemma DeliveryKeepsWf(s: State, d: nat, throws: bool)
    requires Wf(s) && d < |s.deliveries|
    ensures Wf(DeliveryStep(s, d, throws))
  {
    RequestsCarryOver(s, DeliveryStep(s, d, throws));
    OutsideChangeKeepsWf(s, DeliveryStep(s, d, throws));
  }

  lemma StepKeepsWf(s: State, a: Action)
    requires Wf(s)
    ensures Wf(Step(s, a))
  {
    match a
    case RunStep(r, input) =>
      if r < |s.runs| {
        assert RunWf(s, r, s.runs[r]);
        WorkerStepKeepsWf(s, r, input);
      }
    case Reopen(q, cap) =>
      if q < |s.requests| && s.requests[q].Extend? {
        assert RequestWf(s, s.requests[q]);
        ReopenKeepsWf(s, q, cap);
      }
    case StartSearch(user, cap, direct, now) => StartKeepsWf(s, user, cap, direct, now);
    case Enqueue(q) =>
      if q < |s.requests| && s.requests[q].Queueing? {
        assert RequestWf(s, s.requests[q]);
        EnqueueKeepsWf(s, q);
      }
    case CommitCancel(q) =>
      if q < |s.requests| && s.requests[q].Cancel? {
        assert RequestWf(s, s.requests[q]);
        CancelKeepsWf(s, q);
      }
    case AskExtend(user, job) =>
      if job < |s.jobs| && s.jobs[job].user == user { AskKeepsWf(s, Extend(user, job, PeopleOf(s.rows, job))); }
    case AskCancel(user, job) =>
      if job < |s.jobs| { AskKeepsWf(s, Cancel(job)); }
    case DeliverStep(d, throws) =>
      if d < |s.deliveries| { DeliveryKeepsWf(s, d, throws); }
    case _ =>
      RequestsCarryOver(s, Step(s, a));
      OutsideChangeKeepsWf(s, Step(s, a));
  }

  ghost function Exec(s: State, actions: seq<Action>): (s': State)
    requires Wf(s)
    ensures Wf(s')
    decreases |actions|
  {
    if actions == [] then s
    else
      StepKeepsWf(s, actions[0]);
      Exec(Step(s, actions[0]), actions[1..])
  }

  lemma {:induction false} ExecAppend(s: State, first: seq<Action>, second: seq<Action>)
    requires Wf(s)
    ensures Exec(s, first + second) == Exec(Exec(s, first), second)
    decreases |first|
  {
    if first == [] {
      assert first + second == second;
    } else {
      StepKeepsWf(s, first[0]);
      assert (first + second)[1..] == first[1..] + second;
      ExecAppend(Step(s, first[0]), first[1..], second);
    }
  }

  lemma ExecOne(s: State, a: Action)
    requires Wf(s)
    ensures Wf(Step(s, a)) && Exec(s, [a]) == Step(s, a)
  {
    StepKeepsWf(s, a);
    assert [a][1..] == [];
  }

  /** Nothing has been searched, granted or asked yet. */
  ghost predicate Initial(s: State) {
    && (forall u :: 0 <= u < |s.users| ==> s.users[u].credits >= 0)
    && s.jobs == [] && s.rows == [] && s.runs == [] && s.deliveries == [] && s.ledger == [] && s.requests == []
  }
}
