/** The queue worker in the source's own shape: one loop over the pending rows with
    its calls in order, inside one try block (src/leads/apollo-search.processor.ts:41-226).
    Before any of its calls the rest of the system acts, and any call may throw. The
    worker is shown to be one thread of the step machine of SearchJobs, so everything
    proved of the machine holds of it. */
module ApolloSearch {
  import opened Prelude
  import opened OverFetch
  import opened SearchJobs
  import opened SearchJobsInvariant
  import opened CreditConservation
  import opened CancelBound

  /** Actions of anybody but run `r`. */
  ghost predicate Foreign(r: nat, actions: seq<Action>) {
    forall i :: 0 <= i < |actions| ==> !(actions[i].RunStep? && actions[i].run == r)
  }

  /** What comes with one call: the others' actions before it, and whether it throws. */
  datatype Moment = Moment(others: seq<Action>, fails: bool)

  /** Actions that write no job: asking, queueing a run, webhook deliveries, changes of
      the unlimited flag. */
  ghost predicate Quiet(actions: seq<Action>) {
    forall i :: 0 <= i < |actions| ==>
      var a := actions[i];
      !a.RunStep? && !a.StartSearch? && !a.Reopen? && !a.CommitCancel?
  }

  /** The job of run `r` reads `status`. */
  ghost predicate Reads(s: State, r: nat, status: JobStatus) {
    r < |s.runs| && s.runs[r].job < |s.jobs| && s.jobs[s.runs[r].job].status == status
  }

  ghost predicate Reached(start: State, trace: seq<Action>, s: State) {
    Wf(start) && Wf(s) && s == Exec(start, trace)
  }

  lemma Continue(start: State, trace: seq<Action>, s: State, more: seq<Action>)
    requires Reached(start, trace, s)
    ensures Reached(start, trace + more, Exec(s, more))
  {
    ExecAppend(start, trace, more);
  }

  lemma Extended(start: State, trace: seq<Action>, s: State, a: Action)
    requires Reached(start, trace, s)
    ensures Reached(start, trace + [a], Step(s, a))
  {
    ExecOne(s, a);
    Continue(start, trace, s, [a]);
  }

  /** The guarded decrement, on its own. */
  lemma DecrementStep(s: State, r: nat)
    requires Wf(s) && r < |s.runs| && s.runs[r].pc == Decrementing
    ensures s.runs[r].user < |s.users|
    ensures var run := s.runs[r];
      Step(s, RunStep(r, Tick)) ==
        if s.users[run.user].credits > 0 then
          SetRun(AddCredits(s, run.user, -1), r,
                 run.(pc := Enriching(true), calls := run.calls + 1, spent := run.spent + 1))
        else SetRun(s, r, run.(pc := if run.direct then Completing(false) else SkippingRest(false)))
  {
    assert RunWf(s, r, s.runs[r]);
  }

  lemma SecondThrow(s: State, r: nat)
    requires Wf(s) && r < |s.runs| && s.runs[r].pc == Failing
    ensures Step(s, RunStep(r, Throw)) == SetRun(s, r, s.runs[r].(pc := Finished(false)))
  {
    assert RunWf(s, r, s.runs[r]);
  }

  /** A run whose call has thrown: a reservation it holds stays where it is. */
  function Aborted(run: Run): Run {
    run.(pc := Failing, stranded := run.stranded + AsCount(Holding(run.pc)))
  }

  /** How a turn of the loop ends. */
  datatype Turn = Next | Left | Threw

  class ApolloSearchProcessor {
    var store: State
    ghost const start: State
    ghost var history: seq<Action>

    /** The store is what the history makes of the state the processor found. */
    ghost predicate Valid()
      reads this
    {
      Reached(start, history, store)
    }

    constructor (store: State)
      requires Wf(store)
      ensures Valid() && this.store == store == start && history == []
    {
      this.store, this.start, this.history := store, store, [];
    }

    /** The rest of the system acts. */
    method Others(r: nat, actions: seq<Action>)
      requires Valid() && r < |store.runs| && Foreign(r, actions)
      modifies this
      ensures Valid() && history == old(history) + actions
      ensures r < |store.runs| && store.runs[r] == old(store).runs[r]
      ensures Quiet(actions) ==> store.jobs == old(store).jobs
    {
      ghost var before := history;
      for i := 0 to |actions|
        invariant Valid() && history == before + actions[..i]
        invariant r < |store.runs| && store.runs[r] == old(store).runs[r]
        invariant Quiet(actions) ==> store.jobs == old(store).jobs
      {
        Extended(start, history, store, actions[i]);
        CancelBound.ForeignStep(store, actions[i], r);
        assert before + actions[..i] + [actions[i]] == before + actions[..i + 1];
        store := Step(store, actions[i]);
        history := history + [actions[i]];
      }
      assert actions[..|actions|] == actions;
    }

    /** The worker gets to its next call: others have acted, and the call may throw. */
    method Arrive(r: nat, moment: Moment) returns (fails: bool)
      requires Valid() && r < |store.runs| && Foreign(r, moment.others)
      requires !store.runs[r].pc.Finished? && !store.runs[r].pc.Failing?
      modifies this
      ensures Valid() && fails == moment.fails
      ensures r < |store.runs|
      ensures store.runs[r] == if fails then Aborted(old(store).runs[r]) else old(store).runs[r]
      ensures Quiet(moment.others) ==> store.jobs == old(store).jobs
    {
      Others(r, moment.others);
      fails := moment.fails;
      if fails {
        Extended(start, history, store, RunStep(r, Throw));
        assert RunWf(store, r, store.runs[r]);
        store := SetRun(store, r, Aborted(store.runs[r]));
        history := history + [RunStep(r, Throw)];
      }
    }

    // ── One database or Apollo call each ────────────────────────────────

    method SearchPeople(r: nat, people: seq<Person>) returns (candidates: seq<Person>)
      requires Valid() && r < |store.runs| && store.runs[r].pc == Searching
      modifies this
      ensures Valid() && history == old(history) + [RunStep(r, Found(people))]
      ensures r < |store.runs| && candidates == Candidates(people, old(store).runs[r].excluded, old(store).runs[r].cap)
      ensures store.runs[r] ==
        var run := old(store).runs[r];
        if candidates == [] then run.(pc := Completing(false))
        else run.(pc := Creating, candidates := candidates, ids := seq(|candidates|, _ => None))
      ensures store.jobs == old(store).jobs
    {
      Extended(start, history, store, RunStep(r, Found(people)));
      assert RunWf(store, r, store.runs[r]);
      var run := store.runs[r];
      candidates := Candidates(people, run.excluded, run.cap);
      store := SetRun(store, r,
        if candidates == [] then run.(pc := Completing(false))
        else run.(pc := Creating, candidates := candidates, ids := seq(|candidates|, _ => None)));
      history := history + [RunStep(r, Found(people))];
    }

    method CreatePendingRow(r: nat, k: nat)
      requires Valid() && r < |store.runs| && store.runs[r].pc == Creating
      requires k < |store.runs[r].ids| == |store.runs[r].candidates| && store.runs[r].ids[k] == None
      modifies this
      ensures Valid() && history == old(history) + [RunStep(r, Slot(k))]
      ensures r < |store.runs|
      ensures store.runs[r] == old(store).runs[r].(ids := old(store).runs[r].ids[k := Some(|old(store).rows|)])
      ensures store.jobs == old(store).jobs
    {
      Extended(start, history, store, RunStep(r, Slot(k)));
      assert RunWf(store, r, store.runs[r]);
      var run := store.runs[r];
      var id := |store.rows|;
      store := store.(
        rows := store.rows + [Row(run.job, run.user, run.candidates[k], Pending, r, k, false)],
        runs := store.runs[r := run.(ids := run.ids[k := Some(id)])]);
      history := history + [RunStep(r, Slot(k))];
    }

    method StartLoop(r: nat)
      requires Valid() && r < |store.runs| && store.runs[r].pc == Creating && None !in store.runs[r].ids
      modifies this
      ensures Valid() && history == old(history) + [RunStep(r, Tick)]
      ensures r < |store.runs| && store.runs[r] == old(store).runs[r].(pc := Checking)
      ensures store.jobs == old(store).jobs
    {
      Extended(start, history, store, RunStep(r, Tick));
      assert RunWf(store, r, store.runs[r]);
      store := SetRun(store, r, store.runs[r].(pc := Checking));
      history := history + [RunStep(r, Tick)];
    }

    method ReadStatus(r: nat) returns (status: JobStatus)
      requires Valid() && r < |store.runs|
      requires store.runs[r].pc == Checking && store.runs[r].next < |store.runs[r].candidates|
      modifies this
      ensures Valid() && history == old(history) + [RunStep(r, Tick)]
      ensures old(store).runs[r].job < |old(store).jobs| && status == old(store).jobs[old(store).runs[r].job].status
      ensures r < |store.runs| && store.runs[r] ==
        old(store).runs[r].(pc := if status == CANCELLED then SkippingRest(true) else ReadingFlag)
      ensures store.jobs == old(store).jobs
    {
      Extended(start, history, store, RunStep(r, Tick));
      assert RunWf(store, r, store.runs[r]);
      status := store.jobs[store.runs[r].job].status;
      store := SetRun(store, r, store.runs[r].(pc := if status == CANCELLED then SkippingRest(true) else ReadingFlag));
      history := history + [RunStep(r, Tick)];
    }

    /** `hasUnlimitedLeadFinderAccess`, ahead of a reservation. */
    method ReadFlag(r: nat) returns (unlimited: bool)
      requires Valid() && r < |store.runs| && store.runs[r].pc == ReadingFlag
      modifies this
      ensures Valid() && history == old(history) + [RunStep(r, Tick)]
      ensures r < |store.runs| && store.runs[r] ==
        var run := old(store).runs[r];
        if unlimited then run.(pc := Enriching(false), calls := run.calls + 1) else run.(pc := Decrementing)
      ensures store.jobs == old(store).jobs
    {
      Extended(start, history, store, RunStep(r, Tick));
      assert RunWf(store, r, store.runs[r]);
      var run := store.runs[r];
      unlimited := store.users[run.user].unlimited;
      store := SetRun(store, r,
        if unlimited then run.(pc := Enriching(false), calls := run.calls + 1) else run.(pc := Decrementing));
      history := history + [RunStep(r, Tick)];
    }

    /** `updateMany` guarded by a balance above zero. */
    method Decrement(r: nat) returns (count: nat)
      requires Valid() && r < |store.runs| && store.runs[r].pc == Decrementing
      modifies this
      ensures Valid() && history == old(history) + [RunStep(r, Tick)]
      ensures r < |store.runs| && store.runs[r] ==
        var run := old(store).runs[r];
        if count > 0 then run.(pc := Enriching(true), calls := run.calls + 1, spent := run.spent + 1)
        else run.(pc := if run.direct then Completing(false) else SkippingRest(false))
      ensures store.jobs == old(store).jobs
    {
      Extended(start, history, store, RunStep(r, Tick));
      DecrementStep(store, r);
      var run := store.runs[r];
      if store.users[run.user].credits > 0 {
        count := 1;
        store := SetRun(AddCredits(store, run.user, -1), r,
                        run.(pc := Enriching(true), calls := run.calls + 1, spent := run.spent + 1));
      } else {
        count := 0;
        store := SetRun(store, r, run.(pc := if run.direct then Completing(false) else SkippingRest(false)));
      }
      history := history + [RunStep(r, Tick)];
    }

    method TryReserveCredit(r: nat, reading: Moment, writing: Moment) returns (reserved: bool, threw: bool)
      requires Valid() && r < |store.runs| && store.runs[r].pc == ReadingFlag
      requires Foreign(r, reading.others) && Foreign(r, writing.others)
      modifies this
      ensures Valid() && r < |store.runs|
      ensures threw ==> store.runs[r].pc == Failing && (reading.fails || writing.fails)
      ensures !threw && reserved ==> store.runs[r].pc.Enriching?
      ensures !threw && !reserved ==>
          store.runs[r].pc == if store.runs[r].direct then Completing(false) else SkippingRest(false)
      ensures store.runs[r] == old(store).runs[r].(
                pc := store.runs[r].pc, calls := store.runs[r].calls, spent := store.runs[r].spent)
      ensures Quiet(reading.others) && Quiet(writing.others) ==> store.jobs == old(store).jobs
    {
      threw := Arrive(r, reading);
      if threw { return false, true; }
      var unlimited := ReadFlag(r);
      if unlimited { return true, false; }
      threw := Arrive(r, writing);
      if threw { return false, true; }
      var count := Decrement(r);
      reserved := count > 0;
    }

    /** `enrichPerson` or `matchByName` has answered. */
    method Enrich(r: nat, found: bool)
      requires Valid() && r < |store.runs| && store.runs[r].pc.Enriching?
      modifies this
      ensures Valid() && history == old(history) + [RunStep(r, Hit(found))]
      ensures r < |store.runs| && store.runs[r] == old(store).runs[r].(
                pc := var charged := old(store).runs[r].pc.charged; if found then Recording(charged)
                    else ReadingRefundFlag(charged))
      ensures store.jobs == old(store).jobs
    {
      Extended(start, history, store, RunStep(r, Hit(found)));
      assert RunWf(store, r, store.runs[r]);
      var run := store.runs[r];
      store := SetRun(store, r,
          run.(pc := if found then Recording(run.pc.charged) else ReadingRefundFlag(run.pc.charged)));
      history := history + [RunStep(r, Hit(found))];
    }

    /** `hasUnlimitedLeadFinderAccess`, ahead of a refund. */
    method ReadRefundFlag(r: nat) returns (unlimited: bool)
      requires Valid() && r < |store.runs| && store.runs[r].pc.ReadingRefundFlag?
      modifies this
      ensures Valid() && history == old(history) + [RunStep(r, Tick)]
      ensures r < |store.runs| && store.runs[r] ==
        var run := old(store).runs[r];
        if unlimited then run.(pc := RecordingMiss, stranded := run.stranded + AsCount(run.pc.charged))
        else run.(pc := Refunding(run.pc.charged))
      ensures store.jobs == old(store).jobs
    {
      Extended(start, history, store, RunStep(r, Tick));
      assert RunWf(store, r, store.runs[r]);
      var run := store.runs[r];
      unlimited := store.users[run.user].unlimited;
      store := SetRun(store, r,
        if unlimited then run.(pc := RecordingMiss, stranded := run.stranded + AsCount(run.pc.charged))
        else run.(pc := Refunding(run.pc.charged)));
      history := history + [RunStep(r, Tick)];
    }

    method Increment(r: nat)
      requires Valid() && r < |store.runs| && store.runs[r].pc.Refunding?
      modifies this
      ensures Valid() && history == old(history) + [RunStep(r, Tick)]
      ensures r < |store.runs| && store.runs[r] ==
        var run := old(store).runs[r];
        run.(pc := RecordingMiss, spent := run.spent - 1, minted := run.minted + AsCount(!run.pc.charged))
      ensures store.jobs == old(store).jobs
    {
      Extended(start, history, store, RunStep(r, Tick));
      assert RunWf(store, r, store.runs[r]);
      var run := store.runs[r];
      store := SetRun(AddCredits(store, run.user, 1), r,
                      run.(pc := RecordingMiss, spent := run.spent - 1,
                          minted := run.minted + AsCount(!run.pc.charged)));
      history := history + [RunStep(r, Tick)];
    }

    method RefundCredit(r: nat, reading: Moment, writing: Moment) returns (threw: bool)
      requires Valid() && r < |store.runs| && store.runs[r].pc.ReadingRefundFlag?
      requires Foreign(r, reading.others) && Foreign(r, writing.others)
      modifies this
      ensures Valid() && r < |store.runs|
      ensures store.runs[r].pc == if threw then Failing else RecordingMiss
      ensures threw ==> reading.fails || writing.fails
      ensures store.runs[r] == old(store).runs[r].(
                pc := store.runs[r].pc, spent := store.runs[r].spent, stranded := store.runs[r].stranded,
                    minted := store.runs[r].minted)
      ensures Quiet(reading.others) && Quiet(writing.others) ==> store.jobs == old(store).jobs
    {
      threw := Arrive(r, reading);
      if threw { return; }
      var unlimited := ReadRefundFlag(r);
      if unlimited { return; }
      threw := Arrive(r, writing);
      if threw { return; }
      Increment(r);
    }

    /** The update of the loop's current pending row. */
    method UpdateRow(r: nat, status: RowStatus)
      requires Valid() && r < |store.runs| && !store.runs[r].direct
      requires (store.runs[r].pc.Recording? && status == Enriched)
          || (store.runs[r].pc.RecordingMiss? && status == Failed)
      modifies this
      ensures Valid() && history == old(history) + [RunStep(r, Tick)]
      ensures r < |store.runs|
          && store.runs[r] == old(store).runs[r].(next := old(store).runs[r].next + 1, pc := Checking)
      ensures store.jobs == old(store).jobs
    {
      Extended(start, history, store, RunStep(r, Tick));
      RunsCanWrite(store, r);
      assert RunWf(store, r, store.runs[r]);
      var run := store.runs[r];
      var id := run.ids[run.next].value;
      var paid := run.pc.Recording? && run.pc.charged;
      store := store.(
        rows := store.rows[id := store.rows[id].(status := status, paid := paid)],
        runs := store.runs[r := run.(next := run.next + 1, pc := Checking)]);
      history := history + [RunStep(r, Tick)];
    }

    /** The creation of a direct match's one row. */
    method CreateResult(r: nat, status: RowStatus)
      requires Valid() && r < |store.runs| && store.runs[r].direct
      requires (store.runs[r].pc.Recording? && status == Enriched)
          || (store.runs[r].pc.RecordingMiss? && status == Failed)
      modifies this
      ensures Valid() && history == old(history) + [RunStep(r, Tick)]
      ensures r < |store.runs|
          && store.runs[r] == old(store).runs[r].(next := old(store).runs[r].next + 1, pc := Completing(true))
      ensures store.jobs == old(store).jobs
    {
      Extended(start, history, store, RunStep(r, Tick));
      assert RunWf(store, r, store.runs[r]);
      var run := store.runs[r];
      var paid := run.pc.Recording? && run.pc.charged;
      store := store.(
        rows := store.rows + [Row(run.job, run.user, 0, status, r, 0, paid)],
        runs := store.runs[r := run.(next := run.next + 1, pc := Completing(true))]);
      history := history + [RunStep(r, Tick)];
    }

    method SkipRemaining(r: nat)
      requires Valid() && r < |store.runs| && store.runs[r].pc.SkippingRest?
      modifies this
      ensures Valid() && history == old(history) + [RunStep(r, Tick)]
      ensures r < |store.runs| && store.runs[r] == old(store).runs[r].(
                pc := if old(store).runs[r].pc.stop then Finished(true) else Completing(true))
      ensures store.jobs == old(store).jobs
    {
      Extended(start, history, store, RunStep(r, Tick));
      assert RunWf(store, r, store.runs[r]);
      var run := store.runs[r];
      store := SetRun(SkipPending(store, run.job), r,
          run.(pc := if run.pc.stop then Finished(true) else Completing(true)));
      history := history + [RunStep(r, Tick)];
    }

    method LeaveLoop(r: nat)
      requires Valid() && r < |store.runs|
      requires store.runs[r].pc == Checking && store.runs[r].next == |store.runs[r].candidates|
      modifies this
      ensures Valid() && history == old(history) + [RunStep(r, Tick)]
      ensures r < |store.runs| && store.runs[r] == old(store).runs[r].(pc := Completing(true))
      ensures store.jobs == old(store).jobs
    {
      Extended(start, history, store, RunStep(r, Tick));
      assert RunWf(store, r, store.runs[r]);
      store := SetRun(store, r, store.runs[r].(pc := Completing(true)));
      history := history + [RunStep(r, Tick)];
    }

    method WriteCompleted(r: nat)
      requires Valid() && r < |store.runs| && store.runs[r].pc.Completing?
      modifies this
      ensures Valid() && history == old(history) + [RunStep(r, Tick)]
      ensures r < |store.runs| && store.runs[r] == old(store).runs[r].(
                pc := if old(store).runs[r].pc.audited then Auditing else Finished(true))
      ensures Reads(store, r, COMPLETED)
    {
      Extended(start, history, store, RunStep(r, Tick));
      assert RunWf(store, r, store.runs[r]);
      var run := store.runs[r];
      store := SetRun(SetStatus(store, run.job, COMPLETED), r,
          run.(pc := if run.pc.audited then Auditing else Finished(true)));
      history := history + [RunStep(r, Tick)];
    }

    method RecordAudit(r: nat)
      requires Valid() && r < |store.runs| && store.runs[r].pc == Auditing
      modifies this
      ensures Valid() && history == old(history) + [RunStep(r, Tick)]
      ensures r < |store.runs| && store.runs[r] == old(store).runs[r].(pc := Finished(true))
      ensures store.jobs == old(store).jobs
    {
      Extended(start, history, store, RunStep(r, Tick));
      assert RunWf(store, r, store.runs[r]);
      store := SetRun(store, r, store.runs[r].(pc := Finished(true)));
      history := history + [RunStep(r, Tick)];
    }

    /** The COMPLETED write, and the audit record that follows it on most paths. */
    method Complete(r: nat, writing: Moment, auditing: Moment) returns (threw: bool)
      requires Valid() && r < |store.runs| && store.runs[r].pc.Completing?
      requires Foreign(r, writing.others) && Foreign(r, auditing.others)
      modifies this
      ensures Valid() && r < |store.runs|
      ensures store.runs[r].pc == if threw then Failing else Finished(true)
      ensures threw ==> writing.fails || auditing.fails
      ensures !threw && Quiet(auditing.others) ==> Reads(store, r, COMPLETED)
    {
      threw := Arrive(r, writing);
      if threw { return; }
      var audited := store.runs[r].pc.audited;
      WriteCompleted(r);
      if !audited { return; }
      threw := Arrive(r, auditing);
      if threw { return; }
      RecordAudit(r);
    }

    /** The catch block: FAILED, unless that write throws as well. */
    method RecordFailure(r: nat, moment: Moment)
      requires Valid() && r < |store.runs| && store.runs[r].pc == Failing && Foreign(r, moment.others)
      modifies this
      ensures Valid() && r < |store.runs| && store.runs[r].pc == Finished(false)
      ensures !moment.fails ==> store.runs[r].job < |store.jobs| && store.jobs[store.runs[r].job].status == FAILED
    {
      Others(r, moment.others);
      var run := store.runs[r];
      if moment.fails {
        Extended(start, history, store, RunStep(r, Throw));
        SecondThrow(store, r);
        store := SetRun(store, r, run.(pc := Finished(false)));
        history := history + [RunStep(r, Throw)];
      } else {
        Extended(start, history, store, RunStep(r, Tick));
        FailureIsWritten(store, r);
        store := SetRun(SetStatus(store, run.job, FAILED), r, run.(pc := Finished(false)));
        history := history + [RunStep(r, Tick)];
      }
    }

    // ── The two paths of `process` ──────────────────────────────────────

    /** Rows are created one call at a time; the source starts them all at once and
        waits for all of them, and the machine allows every order. */
    method CreatePendingRows(r: nat, at: nat -> Moment) returns (threw: bool)
      requires Valid() && r < |store.runs| && forall n :: Foreign(r, at(n).others)
      requires store.runs[r].pc == Creating && |store.runs[r].ids| == |store.runs[r].candidates|
      requires forall k :: 0 <= k < |store.runs[r].ids| ==> store.runs[r].ids[k] == None
      modifies this
      ensures Valid() && r < |store.runs|
      ensures !threw ==> store.runs[r] == old(store).runs[r].(pc := Checking, ids := store.runs[r].ids)
      ensures threw ==> store.runs[r].pc == Failing && exists n :: at(n).fails
      ensures (forall n :: Quiet(at(n).others)) ==> store.jobs == old(store).jobs
    {
      ghost var first := store.runs[r];
      var n := |store.runs[r].candidates|;
      for k := 0 to n
        invariant Valid() && r < |store.runs| && store.runs[r] == first.(ids := store.runs[r].ids)
        invariant |store.runs[r].ids| == n
        invariant forall j :: 0 <= j < n ==> (store.runs[r].ids[j].None? <==> j >= k)
        invariant (forall n :: Quiet(at(n).others)) ==> store.jobs == old(store).jobs
      {
        threw := Arrive(r, at(k));
        if threw { return; }
        CreatePendingRow(r, k);
      }
      StartLoop(r);
      threw := false;
    }

    /** A turn once its credit is reserved: the enrichment call, the refund of a miss and
        the update of the row. */
    method EnrichReserved(r: nat, found: bool, at: nat -> Moment) returns (threw: bool)
      requires Valid() && r < |store.runs| && forall n :: Foreign(r, at(n).others)
      requires store.runs[r].pc.Enriching? && !store.runs[r].direct
      modifies this
      ensures Valid() && r < |store.runs|
      ensures store.runs[r].direct == old(store).runs[r].direct && store.runs[r].job == old(store).runs[r].job
      ensures !threw ==>
        && store.runs[r].pc == Checking && store.runs[r].next == old(store).runs[r].next + 1
        && store.runs[r].candidates == old(store).runs[r].candidates
      ensures threw ==> store.runs[r].pc == Failing && exists n :: at(n).fails
      ensures (forall n :: Quiet(at(n).others)) ==> store.jobs == old(store).jobs
    {
      Enrich(r, found);
      if !found {
        threw := RefundCredit(r, at(4), at(5));
        if threw { return; }
      }
      threw := Arrive(r, at(6));
      if threw { return; }
      UpdateRow(r, if found then Enriched else Failed);
    }

    /** One turn of the loop. */
    method EnrichNext(r: nat, found: bool, at: nat -> Moment) returns (turn: Turn)
      requires Valid() && r < |store.runs| && forall n :: Foreign(r, at(n).others)
      requires store.runs[r].pc == Checking && store.runs[r].next < |store.runs[r].candidates| && !store.runs[r].direct
      modifies this
      ensures Valid() && r < |store.runs| && !store.runs[r].direct
      ensures turn == Next ==>
        && store.runs[r].pc == Checking && store.runs[r].next == old(store).runs[r].next + 1
        && store.runs[r].candidates == old(store).runs[r].candidates
      ensures turn == Left ==> store.runs[r].pc == Finished(true) || store.runs[r].pc == Completing(true)
      ensures turn == Threw ==> store.runs[r].pc == Failing && exists n :: at(n).fails
      ensures store.runs[r].job == old(store).runs[r].job
      ensures (forall n :: Quiet(at(n).others)) ==>
        && store.jobs == old(store).jobs
        && (turn == Next ==> !Reads(store, r, CANCELLED))
        && (turn == Left ==>
              store.runs[r].pc == if Reads(store, r, CANCELLED) then Finished(true) else Completing(true))
    {
      var threw := Arrive(r, at(0));
      if threw { return Threw; }
      var status := ReadStatus(r);
      if status == CANCELLED {
        threw := Arrive(r, at(1));
        if threw { return Threw; }
        SkipRemaining(r);
        return Left;
      }

      var reserved;
      reserved, threw := TryReserveCredit(r, at(1), at(2));
      if threw { return Threw; }
      threw := Arrive(r, at(3));
      if threw { return Threw; }
      if !reserved {
        SkipRemaining(r);
        return Left;
      }

      threw := EnrichReserved(r, found, at);
      if threw { return Threw; }
      return Next;
    }

    /** The loop over the pending rows. */
    method EnrichAll(r: nat, hits: nat -> bool, at: (nat, nat) -> Moment) returns (turn: Turn)
      requires Valid() && r < |store.runs| && forall i, n :: Foreign(r, at(i, n).others)
      requires store.runs[r].pc == Checking && store.runs[r].next == 0 && !store.runs[r].direct
      modifies this
      ensures Valid() && r < |store.runs| && !store.runs[r].direct
      ensures turn == Next ==> store.runs[r].pc == Checking && store.runs[r].next == |store.runs[r].candidates|
      ensures turn == Left ==> store.runs[r].pc == Finished(true) || store.runs[r].pc == Completing(true)
      ensures turn == Threw ==> store.runs[r].pc == Failing && exists i, n :: at(i, n).fails
      ensures store.runs[r].job == old(store).runs[r].job
      ensures (forall i, n :: Quiet(at(i, n).others)) ==>
        && store.jobs == old(store).jobs
        && (turn == Next && old(store).runs[r].candidates != [] ==> !Reads(store, r, CANCELLED))
        && (turn == Left ==>
              store.runs[r].pc == if Reads(store, r, CANCELLED) then Finished(true) else Completing(true))
    {
      var candidates := store.runs[r].candidates;
      var i := 0;
      turn := Next;
      while i < |candidates| && turn == Next
        invariant Valid() && r < |store.runs| && i <= |candidates| && !store.runs[r].direct
        invariant turn == Next ==>
          store.runs[r].pc == Checking && store.runs[r].next == i && store.runs[r].candidates == candidates
        invariant turn == Left ==> store.runs[r].pc == Finished(true) || store.runs[r].pc == Completing(true)
        invariant turn == Threw ==> store.runs[r].pc == Failing && exists i, n :: at(i, n).fails
        invariant store.runs[r].job == old(store).runs[r].job
        invariant (forall i, n :: Quiet(at(i, n).others)) ==>
          && store.jobs == old(store).jobs
          && (turn == Next && i > 0 ==> !Reads(store, r, CANCELLED))
          && (turn == Left ==>
                store.runs[r].pc == if Reads(store, r, CANCELLED) then Finished(true) else Completing(true))
        decreases |candidates| - i
      {
        turn := EnrichNext(r, hits(i), (n: nat) => at(i + 2, n));
        i := i + 1;
      }
    }

    /** The criteria search. `people` is Apollo's answer to the search, `hits(i)` its
        answer for the i-th candidate, `at(i, n)` what comes with the n-th call of turn i. */
    method SearchAndEnrich(r: nat, people: seq<Person>, hits: nat -> bool, at: (nat, nat) -> Moment)
        returns (threw: bool)
      requires Valid() && r < |store.runs| && store.runs[r].pc == Searching
      requires forall i, n :: Foreign(r, at(i, n).others)
      modifies this
      ensures Valid() && r < |store.runs|
      ensures store.runs[r].pc == if threw then Failing else Finished(true)
      ensures threw ==> exists i, n :: at(i, n).fails
      ensures !threw && (forall i, n :: Quiet(at(i, n).others)) ==>
        Reads(store, r,
              if old(Reads(store, r, CANCELLED)
                     && Candidates(people, store.runs[r].excluded, store.runs[r].cap) != [])
              then CANCELLED else COMPLETED)
    {
      assert RunWf(store, r, store.runs[r]);
      threw := Arrive(r, at(0, 0));
      if threw { return; }
      var candidates := SearchPeople(r, people);
      if candidates == [] {
        threw := Complete(r, at(0, 1), at(0, 2));
        return;
      }
      threw := CreatePendingRows(r, (n: nat) => at(1, n));
      if threw { return; }
      var turn := EnrichAll(r, hits, at);
      if turn == Threw { return true; }
      if turn == Next { LeaveLoop(r); }
      if store.runs[r].pc == Completing(true) {
        threw := Complete(r, at(0, 1), at(0, 2));
      }
    }

    method ProcessDirectMatch(r: nat, matched: bool, at: nat -> Moment) returns (threw: bool)
      requires Valid() && r < |store.runs| && forall n :: Foreign(r, at(n).others)
      requires store.runs[r].direct && store.runs[r].pc == ReadingFlag
      modifies this
      ensures Valid() && r < |store.runs|
      ensures store.runs[r].pc == if threw then Failing else Finished(true)
      ensures threw ==> exists n :: at(n).fails
      ensures !threw && Quiet(at(7).others) ==> Reads(store, r, COMPLETED)
    {
      var reserved;
      reserved, threw := TryReserveCredit(r, at(0), at(1));
      if threw { return; }
      if reserved {
        threw := Arrive(r, at(2));
        if threw { return; }
        Enrich(r, matched);
        if !matched {
          threw := RefundCredit(r, at(3), at(4));
          if threw { return; }
        }
        threw := Arrive(r, at(5));
        if threw { return; }
        CreateResult(r, if matched then Enriched else Failed);
      }
      threw := Complete(r, at(6), at(7));
    }

    /** `process`: the try block, which ends cleanly unless one of its calls throws, and
        the catch block. */
    method Process(r: nat, people: seq<Person>, hits: nat -> bool, at: (nat, nat) -> Moment, catching: Moment)
        returns (clean: bool)
      requires Valid() && r < |store.runs|
      requires store.runs[r].pc == Searching || (store.runs[r].direct && store.runs[r].pc == ReadingFlag)
      requires (forall i, n :: Foreign(r, at(i, n).others)) && Foreign(r, catching.others)
      modifies this
      ensures Valid() && r < |store.runs| && store.runs[r].pc == Finished(clean)
      ensures (forall i, n :: !at(i, n).fails) ==> clean
      ensures !clean && !catching.fails ==>
          store.runs[r].job < |store.jobs| && store.jobs[store.runs[r].job].status == FAILED
      ensures clean && (forall i, n :: Quiet(at(i, n).others)) ==>
        Reads(store, r,
              if old(Reads(store, r, CANCELLED) && !store.runs[r].direct
                     && Candidates(people, store.runs[r].excluded, store.runs[r].cap) != [])
              then CANCELLED else COMPLETED)
    {
      var threw;
      if store.runs[r].direct {
        threw := ProcessDirectMatch(r, hits(0), (n: nat) => at(0, n));
      } else {
        threw := SearchAndEnrich(r, people, hits, at);
      }
      if threw {
        RecordFailure(r, catching);
      }
      clean := !threw;
    }
  }
}
