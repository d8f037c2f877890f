/** Cancelling a job stops new spend: how many enrichment calls can still begin
    once CANCELLED has been committed. */
module CancelBound {
  import opened Prelude
  import opened SearchJobs
  import opened SearchJobsInvariant
  import opened CreditConservation
  import OverFetch

  /** A run that is past its cancel check, or has none, and has not called Apollo yet. */
  function Slack(run: Run): nat {
    if run.pc == ReadingFlag || run.pc == Decrementing then 1 else 0
  }

  /** A run that will never read its job's status again. */
  predicate PastLoop(pc: Pc) {
    pc.Auditing? || pc.Failing? || pc.Finished?
  }

  /** The step uses up the run's slack before it may begin a call, and either the
      job still reads CANCELLED or the run is past its loop. */
  ghost predicate UsesSlack(s: State, r: nat, s': State)
    requires r < |s.runs| && s.runs[r].job < |s.jobs|
  {
    && |s'.runs| == |s.runs| && |s'.jobs| == |s.jobs|
    && s'.runs[r].calls + Slack(s'.runs[r]) <= s.runs[r].calls + Slack(s.runs[r])
    && (s'.jobs[s.runs[r].job].status == CANCELLED || PastLoop(s'.runs[r].pc))
  }

  /** Calls begin in the reservation only, which uses up the slack. */
  lemma ReserveBound(s: State, r: nat)
    requires r < |s.runs| && s.runs[r].user < |s.users| && s.runs[r].job < |s.jobs|
    requires s.runs[r].pc.ReadingFlag? || s.runs[r].pc.Decrementing?
    requires s.jobs[s.runs[r].job].status == CANCELLED
    ensures UsesSlack(s, r, ReserveStep(s, r))
  {
  }

  lemma TickBound(s: State, r: nat)
    requires r < |s.runs| && CanWrite(s, r)
    requires s.runs[r].user < |s.users| && s.runs[r].job < |s.jobs|
    requires s.jobs[s.runs[r].job].status == CANCELLED || PastLoop(s.runs[r].pc)
    ensures UsesSlack(s, r, TickStep(s, r))
  {
    match s.runs[r].pc
    case ReadingFlag => ReserveBound(s, r);
    case Decrementing => ReserveBound(s, r);
    case Recording(charged) => WriteResultShape(s, r, Enriched, charged);
    case RecordingMiss => WriteResultShape(s, r, Failed, false);
    case _ =>
  }

  /** While its job reads CANCELLED, each step of a run uses up its slack before it
      may begin a call. */
  lemma WorkerStepBound(s: State, r: nat, input: Input)
    requires r < |s.runs| && CanWrite(s, r)
    requires s.runs[r].user < |s.users| && s.runs[r].job < |s.jobs|
    requires s.jobs[s.runs[r].job].status == CANCELLED || PastLoop(s.runs[r].pc)
    ensures UsesSlack(s, r, WorkerStep(s, r, input))
  {
    if input.Tick? { TickBound(s, r); }
  }

  /** The states an interleaving passes through, all with `job` CANCELLED. */
  ghost predicate StaysCancelled(s: State, actions: seq<Action>, job: nat)
    requires Wf(s)
    decreases |actions|
  {
    && job < |s.jobs| && s.jobs[job].status == CANCELLED
    && (actions != [] ==>
          (StepKeepsWf(s, actions[0]); StaysCancelled(Step(s, actions[0]), actions[1..], job)))
  }

  /** As long as the status stays CANCELLED, every run of the job, however many
      there are, begins at most one more call, and none if it had not passed its check. */
  lemma {:induction false} EachRunBeginsAtMostOneCall(s: State, actions: seq<Action>, job: nat, r: nat)
    requires Wf(s) && StaysCancelled(s, actions, job)
    requires r < |s.runs| && s.runs[r].job == job
    ensures r < |Exec(s, actions).runs|
    ensures Exec(s, actions).runs[r].calls <= s.runs[r].calls + Slack(s.runs[r])
    decreases |actions|
  {
    if actions != [] {
      var a := actions[0];
      StepKeepsWf(s, a);
      assert RunWf(s, r, s.runs[r]);
      if a.RunStep? && a.run < |s.runs| {
        assert RunWf(s, a.run, s.runs[a.run]);
        WorkerStepFrame(s, a.run, a.input);
        if a.run == r {
          RunsCanWrite(s, r);
          WorkerStepBound(s, r, a.input);
        }
      }
      EachRunBeginsAtMostOneCall(Step(s, a), actions[1..], job, r);
    }
  }

  /** `r` is the only run of its job that still has work to do. */
  ghost predicate Solo(s: State, r: nat) {
    r < |s.runs| && forall q :: 0 <= q < |s.runs| && q != r && s.runs[q].job == s.runs[r].job ==> s.runs[q].pc.Finished?
  }

  /** The step reopens the job or queues another run of it. */
  ghost predicate Revives(s: State, a: Action, job: nat) {
    match a
    case Reopen(q, _) => q < |s.requests| && s.requests[q].Extend? && s.requests[q].job == job
    case Enqueue(q) => q < |s.requests| && s.requests[q].Queueing? && s.requests[q].job == job
    case _ => false
  }

  ghost predicate NeverRevived(s: State, actions: seq<Action>, job: nat)
    requires Wf(s)
    decreases |actions|
  {
    actions != [] ==>
      && !Revives(s, actions[0], job)
      && (StepKeepsWf(s, actions[0]); NeverRevived(Step(s, actions[0]), actions[1..], job))
  }

  /** What a step leaves of a solo run whose job reads CANCELLED or that is past its loop. */
  ghost predicate StaysSolo(s: State, r: nat, s': State)
    requires r < |s.runs|
  {
    && Solo(s', r)
    && s'.runs[r].job == s.runs[r].job < |s'.jobs|
    && s'.runs[r].calls + Slack(s'.runs[r]) <= s.runs[r].calls + Slack(s.runs[r])
    && (s'.jobs[s'.runs[r].job].status == CANCELLED || PastLoop(s'.runs[r].pc))
  }

  lemma SoloWorkerStep(s: State, q: nat, input: Input, r: nat)
    requires Solo(s, r) && q < |s.runs| && CanWrite(s, q)
    requires s.runs[q].user < |s.users| && s.runs[q].job < |s.jobs| && s.runs[r].job < |s.jobs|
    requires s.jobs[s.runs[r].job].status == CANCELLED || PastLoop(s.runs[r].pc)
    ensures StaysSolo(s, r, WorkerStep(s, q, input))
  {
    WorkerStepFrame(s, q, input);
    if q == r {
      WorkerStepBound(s, r, input);
    } else if s.runs[q].job == s.runs[r].job {
      FinishedStays(s, q, input);
    }
  }

  lemma SoloStep(s: State, a: Action, r: nat)
    requires Wf(s) && Solo(s, r)
    requires !Revives(s, a, s.runs[r].job)
    requires s.runs[r].job < |s.jobs|
    requires s.jobs[s.runs[r].job].status == CANCELLED || PastLoop(s.runs[r].pc)
    ensures StaysSolo(s, r, Step(s, a))
  {
    if a.RunStep? && a.run < |s.runs| {
      assert RunWf(s, a.run, s.runs[a.run]);
      RunsCanWrite(s, a.run);
      SoloWorkerStep(s, a.run, a.input, r);
    } else {
      SoloRequestStep(s, a, r);
    }
  }

  lemma SoloRequestStep(s: State, a: Action, r: nat)
    requires Wf(s) && Solo(s, r) && !(a.RunStep? && a.run < |s.runs|)
    requires !Revives(s, a, s.runs[r].job)
    requires s.runs[r].job < |s.jobs|
    requires s.jobs[s.runs[r].job].status == CANCELLED || PastLoop(s.runs[r].pc)
    ensures StaysSolo(s, r, Step(s, a))
  {
  }

  lemma FinishedStays(s: State, r: nat, input: Input)
    requires r < |s.runs| && s.runs[r].pc.Finished?
    requires s.runs[r].user < |s.users| && s.runs[r].job < |s.jobs|
    ensures var s' := WorkerStep(s, r, input);
      |s'.runs| == |s.runs| && s'.runs[r].pc == s.runs[r].pc && s'.jobs == s.jobs
  {
  }

  /** With one run left at work and no reopening in between, at most one further
      call begins after CANCELLED, whatever else happens and although the run's
      own last write may overwrite the status. */
  lemma {:induction false} CancelStopsASoloRun(s: State, actions: seq<Action>, r: nat)
    requires Wf(s) && Solo(s, r)
    requires s.runs[r].job < |s.jobs|
    requires s.jobs[s.runs[r].job].status == CANCELLED || PastLoop(s.runs[r].pc)
    requires NeverRevived(s, actions, s.runs[r].job)
    ensures Solo(Exec(s, actions), r)
    ensures Exec(s, actions).runs[r].calls <= s.runs[r].calls + Slack(s.runs[r])
    decreases |actions|
  {
    if actions != [] {
      StepKeepsWf(s, actions[0]);
      SoloStep(s, actions[0], r);
      CancelStopsASoloRun(Step(s, actions[0]), actions[1..], r);
    }
  }

  // ── The calls a run has ahead of it at most ───────────────────────────

  /** Candidates at or after the loop position. */
  function Rest(run: Run): nat {
    if run.next < |run.candidates| then |run.candidates| - run.next else 0
  }

  /** Turns of the loop the run may still begin. */
  function TurnsLeft(run: Run): nat {
    if run.direct then 0
    else match run.pc
      case Searching => run.cap
      case Creating => Rest(run)
      case Checking => Rest(run)
      case _ => if InLoop(run.pc) && Rest(run) > 0 then Rest(run) - 1 else 0
  }

  /** Calls begun, or still to be begun by a run that nothing stops. */
  function Potential(run: Run): nat { run.calls + Slack(run) + TurnsLeft(run) }

  lemma AnswerKeepsPotential(s: State, r: nat, input: Input)
    requires r < |s.runs| && !input.Tick?
    requires s.runs[r].user < |s.users| && s.runs[r].job < |s.jobs|
    ensures |WorkerStep(s, r, input).runs| == |s.runs|
    ensures Potential(WorkerStep(s, r, input).runs[r]) <= Potential(s.runs[r])
  {
  }

  lemma TickKeepsPotential(s: State, r: nat)
    requires r < |s.runs| && CanWrite(s, r)
    requires s.runs[r].user < |s.users| && s.runs[r].job < |s.jobs|
    requires s.runs[r].direct ==> !s.runs[r].pc.Checking?
    ensures |TickStep(s, r).runs| == |s.runs|
    ensures Potential(TickStep(s, r).runs[r]) <= Potential(s.runs[r])
  {
    match s.runs[r].pc
    case Recording(charged) => WriteResultShape(s, r, Enriched, charged);
    case RecordingMiss => WriteResultShape(s, r, Failed, false);
    case _ =>
  }

  lemma ForeignStep(s: State, a: Action, r: nat)
    requires Wf(s) && r < |s.runs| && !(a.RunStep? && a.run == r)
    ensures r < |Step(s, a).runs| && Step(s, a).runs[r] == s.runs[r]
  {
    if a.RunStep? && a.run < |s.runs| {
      assert RunWf(s, a.run, s.runs[a.run]);
      WorkerStepFrame(s, a.run, a.input);
    }
  }

  lemma StepKeepsPotential(s: State, a: Action, r: nat)
    requires Wf(s) && r < |s.runs|
    ensures r < |Step(s, a).runs| && Potential(Step(s, a).runs[r]) <= Potential(s.runs[r])
  {
    if a.RunStep? && a.run == r {
      assert RunWf(s, r, s.runs[r]);
      RunsCanWrite(s, r);
      if a.input.Tick? { TickKeepsPotential(s, r); } else { AnswerKeepsPotential(s, r, a.input); }
    } else {
      ForeignStep(s, a, r);
    }
  }

  /** Whatever happens, a run never begins more calls than it has ahead. */
  lemma {:induction false} NeverMoreThanPotential(s: State, actions: seq<Action>, r: nat)
    requires Wf(s) && r < |s.runs|
    ensures r < |Exec(s, actions).runs|
    ensures Exec(s, actions).runs[r].calls <= Potential(s.runs[r])
    decreases |actions|
  {
    if actions != [] {
      StepKeepsWf(s, actions[0]);
      StepKeepsPotential(s, actions[0], r);
      NeverMoreThanPotential(Step(s, actions[0]), actions[1..], r);
    }
  }

  // ── A run nothing stops begins them all ───────────────────────────────

  /** Nothing in the way of run `r`: unlimited, the job not CANCELLED, and a credit at
      hand if it is past the reading of the flag. */
  predicate Clear(s: State, r: nat) {
    && r < |s.runs|
    && s.runs[r].user < |s.users| && s.runs[r].job < |s.jobs|
    && s.users[s.runs[r].user].unlimited
    && (s.runs[r].pc.Decrementing? ==> s.users[s.runs[r].user].credits > 0)
    && s.jobs[s.runs[r].job].status != CANCELLED
  }

  ghost predicate Unhindered(s: State, r: nat) { Wf(s) && Clear(s, r) }

  ghost predicate OnlyRun(actions: seq<Action>, r: nat) {
    forall i :: 0 <= i < |actions| ==> actions[i].RunStep? && actions[i].run == r
  }

  /** A page of people nobody has seen yet. */
  lemma NewPage(excluded: set<nat>, n: nat) returns (people: seq<nat>)
    ensures |people| == n && OverFetch.Candidates(people, excluded, n) == people
  {
    var listed := OverFetch.ListExcluded(excluded);
    people := OverFetch.NewPeople(listed, n);
    OverFetch.NoneExcluded(people, excluded);
    assert OverFetch.Take(people, n) == people;
  }

  function MissingIds(ids: seq<Option<nat>>): nat {
    if ids == [] then 0 else MissingIds(ids[..|ids| - 1]) + if ids[|ids| - 1].None? then 1 else 0
  }

  lemma {:induction false} FillOne(ids: seq<Option<nat>>, k: nat, id: nat)
    requires k < |ids| && ids[k].None?
    ensures MissingIds(ids[k := Some(id)]) == MissingIds(ids) - 1
  {
    var n := |ids| - 1;
    if k == n {
      assert ids[k := Some(id)][..n] == ids[..n];
    } else {
      assert ids[k := Some(id)][..n] == ids[..n][k := Some(id)];
      FillOne(ids[..n], k, id);
    }
  }

  lemma {:induction false} MissingAtMostAll(ids: seq<Option<nat>>)
    ensures MissingIds(ids) <= |ids|
  {
    if ids != [] { MissingAtMostAll(ids[..|ids| - 1]); }
  }

  /** Steps left until the run stands at its next check. */
  function Distance(run: Run): nat {
    match run.pc
    case Checking => 0
    case RecordingMiss => 1
    case Recording(_) => 1
    case Refunding(_) => 2
    case ReadingRefundFlag(_) => 3
    case Enriching(_) => 4
    case Decrementing => 5
    case ReadingFlag => 6
    case Creating => 7 + MissingIds(run.ids)
    case Searching => 8 + run.cap
    case _ => 0
  }

  /** The run's next step on its way to the check, and where it leads. */
  ghost predicate Closer(s: State, r: nat, s': State)
    requires r < |s.runs|
  {
    && Clear(s', r) && TurnsLeft(s'.runs[r]) > 0
    && Distance(s'.runs[r]) < Distance(s.runs[r])
    && Potential(s'.runs[r]) == Potential(s.runs[r])
  }

  lemma LoopTickIsCloser(s: State, r: nat)
    requires Clear(s, r) && CanWrite(s, r) && TurnsLeft(s.runs[r]) > 0
    requires InLoop(s.runs[r].pc) && !s.runs[r].pc.Enriching?
    ensures Closer(s, r, TickStep(s, r))
  {
    match s.runs[r].pc
    case Recording(charged) => WriteResultShape(s, r, Enriched, charged);
    case RecordingMiss => WriteResultShape(s, r, Failed, false);
    case _ =>
  }

  lemma HitIsCloser(s: State, r: nat)
    requires Clear(s, r) && TurnsLeft(s.runs[r]) > 0 && s.runs[r].pc.Enriching?
    ensures Closer(s, r, WorkerStep(s, r, Hit(true)))
  {
  }

  lemma SearchIsCloser(s: State, r: nat, people: seq<nat>)
    requires Clear(s, r) && TurnsLeft(s.runs[r]) > 0 && s.runs[r].pc == Searching && s.runs[r].next == 0
    requires |people| == s.runs[r].cap && OverFetch.Candidates(people, s.runs[r].excluded, s.runs[r].cap) == people
    ensures Closer(s, r, WorkerStep(s, r, Found(people)))
  {
    MissingAtMostAll(WorkerStep(s, r, Found(people)).runs[r].ids);
  }

  lemma CreateIsCloser(s: State, r: nat, k: nat)
    requires Clear(s, r) && TurnsLeft(s.runs[r]) > 0 && s.runs[r].pc == Creating
    requires k < |s.runs[r].ids| == |s.runs[r].candidates| && s.runs[r].ids[k].None?
    ensures Closer(s, r, WorkerStep(s, r, Slot(k)))
  {
    FillOne(s.runs[r].ids, k, |s.rows|);
  }

  lemma StartIsCloser(s: State, r: nat)
    requires Clear(s, r) && TurnsLeft(s.runs[r]) > 0 && s.runs[r].pc == Creating && None !in s.runs[r].ids
    ensures Closer(s, r, WorkerStep(s, r, Tick))
  {
  }

  lemma OneStepCloser(s: State, r: nat) returns (a: Action)
    requires Unhindered(s, r) && TurnsLeft(s.runs[r]) > 0 && s.runs[r].pc != Checking
    ensures a.RunStep? && a.run == r && Wf(Step(s, a)) && Closer(s, r, Step(s, a))
  {
    var run := s.runs[r];
    assert RunWf(s, r, run);
    var input := Tick;
    if run.pc == Searching {
      var people := NewPage(run.excluded, run.cap);
      SearchIsCloser(s, r, people);
      input := Found(people);
    } else if run.pc == Creating && None in run.ids {
      var k :| 0 <= k < |run.ids| && run.ids[k] == None;
      CreateIsCloser(s, r, k);
      input := Slot(k);
    } else if run.pc == Creating {
      StartIsCloser(s, r);
    } else if run.pc.Enriching? {
      HitIsCloser(s, r);
      input := Hit(true);
    } else {
      RunsCanWrite(s, r);
      LoopTickIsCloser(s, r);
    }
    a := RunStep(r, input);
    StepKeepsWf(s, a);
  }

  lemma {:induction false} ToCheck(s: State, r: nat) returns (actions: seq<Action>)
    requires Unhindered(s, r) && TurnsLeft(s.runs[r]) > 0
    ensures OnlyRun(actions, r)
    ensures var t := Exec(s, actions);
      && Unhindered(t, r) && t.runs[r].pc == Checking && !t.runs[r].direct
      && Potential(t.runs[r]) == Potential(s.runs[r])
    decreases Distance(s.runs[r])
  {
    if s.runs[r].pc == Checking {
      actions := [];
    } else {
      var a := OneStepCloser(s, r);
      var rest := ToCheck(Step(s, a), r);
      actions := [a] + rest;
      assert actions[1..] == rest;
    }
  }

  /** One turn of the loop, taken by run `r` alone, begins one call. */
  lemma OneTurn(s: State, r: nat) returns (turn: seq<Action>)
    requires Unhindered(s, r) && TurnsLeft(s.runs[r]) > 0 && s.runs[r].pc == Checking
    ensures OnlyRun(turn, r)
    ensures Unhindered(Exec(s, turn), r)
    ensures var before, after := s.runs[r], Exec(s, turn).runs[r];
      && after.pc == Checking && after.direct == before.direct
      && after.next == before.next + 1 && after.candidates == before.candidates
      && after.calls == before.calls + 1
  {
    var tick := RunStep(r, Tick);
    turn := [tick] + [tick] + [RunStep(r, Hit(true))] + [tick];
    var s1 := Step(s, tick);
    ExecOne(s, tick);
    ExecOne(s1, tick);
    var s2 := Step(s1, tick);
    ExecOne(s2, RunStep(r, Hit(true)));
    var s3 := Step(s2, RunStep(r, Hit(true)));
    assert s3.runs[r] == s.runs[r].(pc := Recording(false), calls := s.runs[r].calls + 1);
    ExecOne(s3, tick);
    RecordTurn(s3, r);
    ExecAppend(s, [tick], [tick]);
    ExecAppend(s, [tick] + [tick], [RunStep(r, Hit(true))]);
    ExecAppend(s, [tick] + [tick] + [RunStep(r, Hit(true))], [tick]);
  }

  lemma RecordTurn(s: State, r: nat)
    requires Wf(s) && r < |s.runs| && !s.runs[r].direct && s.runs[r].pc == Recording(false)
    requires s.runs[r].user < |s.users| && s.runs[r].job < |s.jobs|
    ensures var s' := Step(s, RunStep(r, Tick));
      && s'.users == s.users && s'.jobs == s.jobs && |s'.runs| == |s.runs|
      && s'.runs[r] == s.runs[r].(pc := Checking, next := s.runs[r].next + 1)
  {
    RunsCanWrite(s, r);
    WriteResultShape(s, r, Enriched, false);
  }

  /** Unhindered, the run begins a call for every candidate it has left. */
  lemma {:induction false} RemainingTurns(s: State, r: nat) returns (turns: seq<Action>)
    requires Unhindered(s, r) && s.runs[r].pc == Checking && !s.runs[r].direct
    ensures OnlyRun(turns, r)
    ensures r < |Exec(s, turns).runs|
    ensures Exec(s, turns).runs[r].calls == Potential(s.runs[r])
    decreases |s.runs[r].candidates| - s.runs[r].next
  {
    assert RunWf(s, r, s.runs[r]);
    if s.runs[r].next == |s.runs[r].candidates| {
      turns := [];
    } else {
      var turn := OneTurn(s, r);
      var rest := RemainingTurns(Exec(s, turn), r);
      ExecAppend(s, turn, rest);
      turns := turn + rest;
    }
  }

  lemma ThrowMoves(s: State, q: nat)
    requires Wf(s) && q < |s.runs| && !s.runs[q].pc.Finished? && s.runs[q].pc != Failing
    ensures var t := Step(s, RunStep(q, Throw));
      && t == s.(runs := t.runs) && |t.runs| == |s.runs| && t.runs == s.runs[q := t.runs[q]]
      && t.runs[q].pc == Failing && t.runs[q].job == s.runs[q].job
  {
  }

  lemma FailureIsWritten(s: State, q: nat)
    requires Wf(s) && q < |s.runs| && s.runs[q].pc == Failing
    ensures s.runs[q].job < |s.jobs|
    ensures Step(s, RunStep(q, Tick)) ==
        SetRun(SetStatus(s, s.runs[q].job, FAILED), q, s.runs[q].(pc := Finished(false)))
  {
    assert RunWf(s, q, s.runs[q]);
  }

  /** An exception in run `q` writes FAILED over whatever its job's status was. */
  lemma ThrowOverwrites(s: State, q: nat) returns (actions: seq<Action>)
    requires Wf(s) && q < |s.runs| && !s.runs[q].pc.Finished?
    ensures OnlyRun(actions, q)
    ensures s.runs[q].job < |s.jobs|
    ensures var t := Exec(s, actions);
      && t == SetStatus(s, s.runs[q].job, FAILED).(runs := t.runs)
      && |t.runs| == |s.runs| && t.runs == s.runs[q := t.runs[q]]
  {
    var thrown := s;
    actions := [];
    if s.runs[q].pc != Failing {
      ThrowMoves(s, q);
      ExecOne(s, RunStep(q, Throw));
      thrown := Step(s, RunStep(q, Throw));
      actions := [RunStep(q, Throw)];
    }
    FailureIsWritten(thrown, q);
    ExecOne(thrown, RunStep(q, Tick));
    ExecAppend(s, actions, [RunStep(q, Tick)]);
    actions := actions + [RunStep(q, Tick)];
  }

  /** The flag is set and a credit granted: nothing in the way on the account's side. */
  lemma Enable(s: State, r: nat) returns (actions: seq<Action>)
    requires Wf(s) && r < |s.runs| && s.runs[r].user < |s.users|
    ensures RevivesNothing(actions)
    ensures var t, user := Exec(s, actions), s.runs[r].user;
      && t.runs == s.runs && t.jobs == s.jobs && user < |t.users| && t.users[user].unlimited
           && t.users[user].credits > 0
  {
    var user, d := s.runs[r].user, |s.deliveries|;
    var s1 := Step(s, SetUnlimited(user, true));
    ExecOne(s, SetUnlimited(user, true));
    var s2 := Step(s1, Deliver(user, 1));
    ExecOne(s1, Deliver(user, 1));
    ExecOne(s2, DeliverStep(d, false));
    ExecAppend(s, [SetUnlimited(user, true)], [Deliver(user, 1)]);
    ExecAppend(s, [SetUnlimited(user, true)] + [Deliver(user, 1)], [DeliverStep(d, false)]);
    actions := [SetUnlimited(user, true)] + [Deliver(user, 1)] + [DeliverStep(d, false)];
  }

  ghost predicate RevivesNothing(actions: seq<Action>) {
    forall i :: 0 <= i < |actions| ==> !actions[i].Reopen? && !actions[i].Enqueue?
  }

  lemma {:induction false} SurelyNeverRevived(s: State, actions: seq<Action>, job: nat)
    requires Wf(s) && RevivesNothing(actions)
    ensures NeverRevived(s, actions, job)
    decreases |actions|
  {
    if actions != [] {
      StepKeepsWf(s, actions[0]);
      SurelyNeverRevived(Step(s, actions[0]), actions[1..], job);
    }
  }

  /** A run that is past its check can always be let into its call. */
  lemma SlackIsUsed(s: State, r: nat) returns (actions: seq<Action>)
    requires Wf(s) && r < |s.runs| && s.runs[r].user < |s.users| && s.runs[r].job < |s.jobs|
    ensures RevivesNothing(actions) && r < |Exec(s, actions).runs|
    ensures Exec(s, actions).runs[r].calls == s.runs[r].calls + Slack(s.runs[r])
  {
    if Slack(s.runs[r]) == 0 {
      actions := [];
    } else {
      var enable := Enable(s, r);
      var t := Exec(s, enable);
      ExecOne(t, RunStep(r, Tick));
      ExecAppend(s, enable, [RunStep(r, Tick)]);
      actions := enable + [RunStep(r, Tick)];
    }
  }

  /** A run whose job is not CANCELLED can be left to begin every call it has ahead. */
  lemma FreeRun(s: State, r: nat) returns (actions: seq<Action>)
    requires Wf(s) && r < |s.runs| && s.runs[r].user < |s.users| && s.runs[r].job < |s.jobs|
    requires s.jobs[s.runs[r].job].status != CANCELLED && TurnsLeft(s.runs[r]) > 0
    ensures RevivesNothing(actions) && r < |Exec(s, actions).runs|
    ensures Exec(s, actions).runs[r].calls == Potential(s.runs[r])
  {
    var enable := Enable(s, r);
    var s1 := Exec(s, enable);
    var approach := ToCheck(s1, r);
    var s2 := Exec(s1, approach);
    var turns := RemainingTurns(s2, r);
    ExecAppend(s1, approach, turns);
    ExecAppend(s, enable, approach + turns);
    actions := enable + (approach + turns);
  }

  /** What another unfinished run `q` of the job makes possible, without any reopening:
      run `r` begins every call it would have begun had nobody cancelled. */
  lemma SecondRunUndoesCancel(s: State, r: nat, q: nat) returns (actions: seq<Action>)
    requires Wf(s) && r < |s.runs| && q < |s.runs| && q != r
    requires !s.runs[q].pc.Finished? && s.runs[q].job == s.runs[r].job
    requires TurnsLeft(s.runs[r]) > 0
    ensures RevivesNothing(actions) && r < |Exec(s, actions).runs|
    ensures Exec(s, actions).runs[r].calls == Potential(s.runs[r])
  {
    assert RunWf(s, r, s.runs[r]);
    var overwrite := ThrowOverwrites(s, q);
    var rest := FreeRun(Exec(s, overwrite), r);
    ExecAppend(s, overwrite, rest);
    actions := overwrite + rest;
  }

  // ── How many calls begin after CANCELLED ──────────────────────────────

  /** The most calls run `r` can still begin once its job is CANCELLED: its slack, and the
      turns it has left as well if another run of the job is unfinished. */
  ghost function FurtherCalls(s: State, r: nat): nat
    requires r < |s.runs|
  {
    Slack(s.runs[r]) + if Solo(s, r) then 0 else TurnsLeft(s.runs[r])
  }

  /** Over every continuation that does not revive the job, run `r` begins at most `bound`
      further calls. */
  ghost predicate BeginsAtMost(s: State, r: nat, bound: nat)
    requires Wf(s) && r < |s.runs|
  {
    forall actions: seq<Action> :: NeverRevived(s, actions, s.runs[r].job) ==>
      r < |Exec(s, actions).runs| && Exec(s, actions).runs[r].calls <= s.runs[r].calls + bound
  }

  lemma FurtherCallsIsABound(s: State, r: nat)
    requires Wf(s) && r < |s.runs|
    requires s.runs[r].job < |s.jobs| && s.jobs[s.runs[r].job].status == CANCELLED
    ensures BeginsAtMost(s, r, FurtherCalls(s, r))
  {
    forall actions: seq<Action> | NeverRevived(s, actions, s.runs[r].job)
      ensures r < |Exec(s, actions).runs| && Exec(s, actions).runs[r].calls <= s.runs[r].calls + FurtherCalls(s, r)
    {
      if Solo(s, r) { CancelStopsASoloRun(s, actions, r); } else { NeverMoreThanPotential(s, actions, r); }
    }
  }

  lemma FurtherCallsHappen(s: State, r: nat) returns (actions: seq<Action>)
    requires Wf(s) && r < |s.runs|
    ensures NeverRevived(s, actions, s.runs[r].job) && r < |Exec(s, actions).runs|
    ensures Exec(s, actions).runs[r].calls == s.runs[r].calls + FurtherCalls(s, r)
  {
    if Solo(s, r) || TurnsLeft(s.runs[r]) == 0 {
      assert RunWf(s, r, s.runs[r]);
      actions := SlackIsUsed(s, r);
    } else {
      var q :| 0 <= q < |s.runs| && q != r && s.runs[q].job == s.runs[r].job && !s.runs[q].pc.Finished?;
      actions := SecondRunUndoesCancel(s, r, q);
    }
    SurelyNeverRevived(s, actions, s.runs[r].job);
  }

  /** The exact condition, for every bound. */
  lemma CancelBoundIff(s: State, r: nat, bound: nat)
    requires Wf(s) && r < |s.runs|
    requires s.runs[r].job < |s.jobs| && s.jobs[s.runs[r].job].status == CANCELLED
    ensures BeginsAtMost(s, r, bound) <==> FurtherCalls(s, r) <= bound
  {
    FurtherCallsIsABound(s, r);
    if FurtherCalls(s, r) > bound { var actions := FurtherCallsHappen(s, r); }
  }

  /** At most one further call begins after CANCELLED if and only if the run is its job's
      only unfinished one, or has no more than one call ahead. */
  lemma AtMostOneIff(s: State, r: nat)
    requires Wf(s) && r < |s.runs|
    requires s.runs[r].job < |s.jobs| && s.jobs[s.runs[r].job].status == CANCELLED
    ensures BeginsAtMost(s, r, 1) <==> Solo(s, r) || Slack(s.runs[r]) + TurnsLeft(s.runs[r]) <= 1
  {
    CancelBoundIff(s, r, 1);
  }

  // ── Such states are reached ───────────────────────────────────────────

  /** `n` people nobody has been excluded from. */
  function Crowd(n: nat): seq<nat> { seq(n, i => i) }

  /** A search, its first page, one candidate after the other put on file. */
  lemma {:induction false} RowsCreated(s: State, k: nat) returns (actions: seq<Action>)
    requires Wf(s) && s.runs != [] && !s.runs[0].direct && s.runs[0].pc == Creating
    requires k <= |s.runs[0].ids| && forall j :: 0 <= j < |s.runs[0].ids| ==> (s.runs[0].ids[j].None? <==> j >= k)
    ensures OnlyRun(actions, 0)
    ensures var t := Exec(s, actions);
      && t == s.(runs := t.runs, rows := t.rows) && |t.runs| == |s.runs|
      && t.runs == s.runs[0 := s.runs[0].(pc := Checking, ids := t.runs[0].ids)]
    decreases |s.runs[0].ids| - k
  {
    assert RunWf(s, 0, s.runs[0]);
    var a := if k < |s.runs[0].ids| then RunStep(0, Slot(k)) else RunStep(0, Tick);
    ExecOne(s, a);
    if k < |s.runs[0].ids| {
      var rest := RowsCreated(Step(s, a), k + 1);
      actions := [a] + rest;
      assert actions[1..] == rest;
    } else {
      assert None !in s.runs[0].ids;
      actions := [a];
    }
  }

  lemma SearchQueued(s: State, user: nat, n: nat) returns (actions: seq<Action>)
    requires Initial(s) && user < |s.users|
    ensures Wf(s)
    ensures Exec(s, actions) == s.(
              jobs := [Job(user, false, RUNNING, 0, true)], requests := [Answered],
                  runs := [NewRun(user, 0, false, n, {})])
  {
    var start, queue := StartSearch(user, n, false, 0), Enqueue(0);
    ExecOne(s, start);
    ExecOne(Step(s, start), queue);
    ExecAppend(s, [start], [queue]);
    actions := [start] + [queue];
  }

  lemma PageArrives(s: State, n: nat)
    requires Wf(s) && n > 0 && |s.runs| == 1 && s.runs[0].pc == Searching && s.runs[0].cap == n
        && s.runs[0].excluded == {}
    ensures var t := Step(s, RunStep(0, Found(Crowd(n))));
      t == s.(runs := [s.runs[0].(pc := Creating, candidates := Crowd(n), ids := seq(n, _ => None))])
  {
    OverFetch.NoneExcluded(Crowd(n), {});
    assert OverFetch.Take(Crowd(n), n) == Crowd(n);
    var t := Step(s, RunStep(0, Found(Crowd(n))));
    assert t.runs[0].candidates == Crowd(n) && t.runs[0].ids == seq(n, _ => None);
    assert s.runs[0 := t.runs[0]] == [t.runs[0]];
  }

  lemma SearchBegun(s: State, user: nat, n: nat) returns (actions: seq<Action>)
    requires Initial(s) && user < |s.users| && n > 0
    ensures Wf(s)
    ensures var t := Exec(s, actions);
      && t.users == s.users && t.jobs == [Job(user, false, RUNNING, 0, true)] && t.requests == [Answered]
      && |t.runs| == 1 && t.runs[0].pc == Checking && !t.runs[0].direct && t.runs[0].job == 0
      && t.runs[0].user == user && t.runs[0].next == 0 && |t.runs[0].candidates| == n && t.runs[0].calls == 0
  {
    var page := RunStep(0, Found(Crowd(n)));
    var queued := SearchQueued(s, user, n);
    var s1 := Exec(s, queued);
    PageArrives(s1, n);
    ExecOne(s1, page);
    var rest := RowsCreated(Step(s1, page), 0);
    ExecAppend(s1, [page], rest);
    ExecAppend(s, queued, [page] + rest);
    actions := queued + ([page] + rest);
  }

  lemma CancelledOnce(s: State, user: nat, earlier: seq<Request>) returns (actions: seq<Action>)
    requires Wf(s) && s.jobs == [Job(user, false, RUNNING, 0, true)] && s.requests == earlier
    ensures Exec(s, actions) == s.(jobs := [Job(user, false, CANCELLED, 0, true)], requests := earlier + [Answered])
    ensures actions != [] && actions[|actions| - 1].CommitCancel?
  {
    var ask, commit := AskCancel(user, 0), CommitCancel(|earlier|);
    ExecOne(s, ask);
    assert Step(s, ask) == s.(requests := earlier + [Cancel(0)]);
    ExecOne(Step(s, ask), commit);
    assert (earlier + [Cancel(0)])[|earlier| := Answered] == earlier + [Answered];
    ExecAppend(s, [ask], [commit]);
    actions := [ask] + [commit];
  }

  lemma MoreAskedFor(s: State, user: nat, earlier: seq<Request>) returns (actions: seq<Action>)
    requires Wf(s) && s.jobs == [Job(user, false, CANCELLED, 0, true)] && s.requests == earlier
    ensures Exec(s, actions) == s.(
              jobs := [Job(user, false, RUNNING, 0, true)], requests := earlier + [Answered],
              runs := s.runs + [NewRun(user, 0, false, 1, PeopleOf(s.rows, 0))])
  {
    var q, people := |earlier|, PeopleOf(s.rows, 0);
    var ask, reopen, queue := AskExtend(user, 0), Reopen(q, 1), Enqueue(q);
    var s1 := Step(s, ask);
    ExecOne(s, ask);
    assert s1 == s.(requests := earlier + [Extend(user, 0, people)]);
    var s2 := Step(s1, reopen);
    ExecOne(s1, reopen);
    assert s2 == s.(jobs := [Job(user, false, RUNNING, 0, true)], requests := s2.requests);
    assert (earlier + [Extend(user, 0, people)])[q := Queueing(user, 0, 1, people)] == earlier
        + [Queueing(user, 0, 1, people)];
    ExecOne(s2, queue);
    assert (earlier + [Queueing(user, 0, 1, people)])[q := Answered] == earlier + [Answered];
    ExecAppend(s, [ask], [reopen]);
    ExecAppend(s, [ask] + [reopen], [queue]);
    actions := [ask] + [reopen] + [queue];
  }

  /** The user cancels, asks for more, and cancels again before the first run has looked. */
  lemma CancelledTwice(s: State, user: nat) returns (actions: seq<Action>)
    requires Wf(s) && s.jobs == [Job(user, false, RUNNING, 0, true)] && |s.runs| == 1
    ensures var t := Exec(s, actions);
      && t.users == s.users && t.jobs == [Job(user, false, CANCELLED, 0, true)]
      && |t.runs| == 2 && t.runs[0] == s.runs[0] && t.runs[1].job == 0 && t.runs[1].pc == Searching
    ensures actions != [] && actions[|actions| - 1].CommitCancel?
  {
    var first := CancelledOnce(s, user, s.requests);
    var s1 := Exec(s, first);
    var more := MoreAskedFor(s1, user, s1.requests);
    var s2 := Exec(s1, more);
    var second := CancelledOnce(s2, user, s2.requests);
    ExecAppend(s1, more, second);
    ExecAppend(s, first, more + second);
    actions := first + (more + second);
  }

  /** From any initial store there is a run of the system that cancels a job, revives it
      no more, and still begins any number `n` of enrichment calls for it afterwards. */
  lemma CancelCanBeUndone(s: State, user: nat, n: nat) returns (before: seq<Action>, after: seq<Action>)
    requires Initial(s) && user < |s.users| && n > 0
    ensures Wf(s)
    ensures before != [] && before[|before| - 1].CommitCancel?
    ensures var t := Exec(s, before);
      && t.jobs == [Job(user, false, CANCELLED, 0, true)] && |t.runs| == 2
      && t.runs[0].job == 0 && t.runs[0].calls == 0
      && NeverRevived(t, after, 0)
      && |Exec(t, after).runs| > 0 && Exec(t, after).runs[0].calls == n
  {
    var begun := SearchBegun(s, user, n);
    var t0 := Exec(s, begun);
    var cancelled := CancelledTwice(t0, user);
    ExecAppend(s, begun, cancelled);
    before := begun + cancelled;
    var t := Exec(s, before);
    after := SecondRunUndoesCancel(t, 0, 1);
    SurelyNeverRevived(t, after, 0);
  }
}
