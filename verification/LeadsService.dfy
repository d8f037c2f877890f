/** The three request handlers of a Lead Finder search in the source's own shape
    (src/leads/leads.service.ts:209-290 and 658-807). Between a handler's calls the
    rest of the system acts; each handler is one thread of the step machine of
    SearchJobs. */
module Leads {
  import opened Prelude
  import opened SearchJobs
  import opened SearchJobsInvariant
  import opened CreditConservation
  import opened ApolloSearch
  import Billing

  const FREE_SEARCHES_PER_DAY: nat := 4
  const FREE_RESULTS_PER_SEARCH: nat := 25

  datatype Refusal = OutOfCredits | DailyLimitReached | NotFound | StillRunning | NoFilters | NotPaid

  datatype Answer = Started(cap: nat) | Refused(why: Refusal)

  /** What the billing tables say about a user: the live tier subscription, if any,
      and whether a credit pack was ever bought. */
  datatype Billed = Billed(subscription: Option<Billing.Row>, boughtPack: bool)

  /** LEAD_SEARCH_MAX_RESULTS, validated to be at least one, and the grace period. */
  datatype Config = Config(maxResults: nat, grace: nat) {
    predicate Valid() { maxResults >= 1 }
  }

  /** Searches of a user created since an instant. */
  function JobsSince(jobs: seq<Job>, user: nat, since: int): nat {
    if jobs == [] then 0
    else
      var last := jobs[|jobs| - 1];
      JobsSince(jobs[..|jobs| - 1], user, since) + if last.user == user && last.createdAt >= since then 1 else 0
  }

  function SearchesOf(jobs: seq<Job>, user: nat, since: int): set<nat> {
    set j | 0 <= j < |jobs| && jobs[j].user == user && jobs[j].createdAt >= since
  }

  lemma {:induction false} JobsSinceCounts(jobs: seq<Job>, user: nat, since: int)
    ensures JobsSince(jobs, user, since) == |SearchesOf(jobs, user, since)|
  {
    if jobs != [] {
      var n := |jobs| - 1;
      JobsSinceCounts(jobs[..n], user, since);
      var more := if jobs[n].user == user && jobs[n].createdAt >= since then {n} else {};
      assert SearchesOf(jobs, user, since) == SearchesOf(jobs[..n], user, since) + more;
    }
  }

  predicate Paid(c: Config, unlimited: bool, billed: Billed, now: int) {
    || unlimited
    || billed.boughtPack
    || (billed.subscription.Some? && Billing.HasActiveAccess(billed.subscription.value, c.grace, now))
  }

  /** The cap of a new search, or why there is none. A metered search never asks for
      more people than the balance it read, and an unpaid one never for more than the
      free allowance; it asks for as many as it may. */
  function SearchAnswer(c: Config, user: User, paid: bool, searchesToday: nat): (answer: Answer)
    requires c.Valid() && user.credits >= 0
    ensures answer.Started? <==> (user.unlimited || user.credits > 0) && (paid || searchesToday < 4)
    ensures answer.Started? ==>
      && 1 <= answer.cap <= (if paid then c.maxResults else 25)
      && (user.unlimited || answer.cap <= user.credits)
      && (answer.cap == (if paid then c.maxResults else 25)
          || (!user.unlimited && answer.cap == user.credits))
    ensures answer == Refused(OutOfCredits) <==> !user.unlimited && user.credits == 0
    ensures answer.Started? || answer == Refused(OutOfCredits) || answer == Refused(DailyLimitReached)
  {
    var limit := if paid then c.maxResults else FREE_RESULTS_PER_SEARCH;
    if !user.unlimited && user.credits <= 0 then Refused(OutOfCredits)
    else if !paid && searchesToday >= FREE_SEARCHES_PER_DAY then Refused(DailyLimitReached)
    else Started(if user.unlimited then limit else Min(user.credits, limit))
  }

  /** The cap of an extension, for a user with paid access: the least of its limits. */
  function MoreAnswer(c: Config, user: User, count: Option<nat>): (answer: Answer)
    requires c.Valid() && user.credits >= 0 && (count.Some? ==> count.value >= 1)
    ensures answer.Started? <==> user.unlimited || user.credits > 0
    ensures answer.Started? ==>
      && 1 <= answer.cap <= c.maxResults
      && (count.Some? ==> answer.cap <= count.value)
      && (user.unlimited || answer.cap <= user.credits)
      && (answer.cap == c.maxResults || (count.Some? && answer.cap == count.value)
          || (!user.unlimited && answer.cap == user.credits))
    ensures answer.Started? || answer == Refused(OutOfCredits)
  {
    var requested := if count.Some? then count.value else c.maxResults;
    if !user.unlimited && user.credits <= 0 then Refused(OutOfCredits)
    else Started(Min(if user.unlimited then requested else Min(requested, user.credits), c.maxResults))
  }

  // ── A request while others act ────────────────────────────────────────

  /** Nobody else answers request `q`. */
  ghost predicate LeavesRequest(q: nat, actions: seq<Action>) {
    forall i :: 0 <= i < |actions| ==>
      && !(actions[i].Reopen? && actions[i].request == q)
      && !(actions[i].Enqueue? && actions[i].request == q)
      && !(actions[i].CommitCancel? && actions[i].request == q)
  }

  lemma StepKeepsRequest(s: State, a: Action, q: nat)
    requires Wf(s) && q < |s.requests| && LeavesRequest(q, [a])
    ensures q < |Step(s, a).requests| && Step(s, a).requests[q] == s.requests[q]
  {
    assert [a][0] == a;
    if a.RunStep? && a.run < |s.runs| {
      assert RunWf(s, a.run, s.runs[a.run]);
      WorkerStepFrame(s, a.run, a.input);
    }
  }

  lemma {:induction false} RequestStays(s: State, actions: seq<Action>, q: nat)
    requires Wf(s) && q < |s.requests| && LeavesRequest(q, actions)
    ensures q < |Exec(s, actions).requests| && Exec(s, actions).requests[q] == s.requests[q]
    decreases |actions|
  {
    if actions != [] {
      StepKeepsWf(s, actions[0]);
      StepKeepsRequest(s, actions[0], q);
      RequestStays(Step(s, actions[0]), actions[1..], q);
    }
  }

  /** A job keeps everything but its status. */
  lemma {:induction false} JobStays(s: State, actions: seq<Action>, job: nat)
    requires Wf(s) && job < |s.jobs|
    ensures job < |Exec(s, actions).jobs|
    ensures Exec(s, actions).jobs[job] == s.jobs[job].(status := Exec(s, actions).jobs[job].status)
    decreases |actions|
  {
    if actions != [] {
      StepKeepsWf(s, actions[0]);
      StepKeepsJob(s, actions[0], job);
      JobStays(Step(s, actions[0]), actions[1..], job);
    }
  }

  lemma StepKeepsJob(s: State, a: Action, job: nat)
    requires Wf(s) && job < |s.jobs|
    ensures job < |Step(s, a).jobs| && Step(s, a).jobs[job] == s.jobs[job].(status := Step(s, a).jobs[job].status)
  {
    if a.RunStep? && a.run < |s.runs| {
      assert RunWf(s, a.run, s.runs[a.run]);
      WorkerStepFrame(s, a.run, a.input);
    }
  }

  lemma UsersStay(s: State, actions: seq<Action>, user: nat)
    requires Wf(s) && user < |s.users|
    ensures user < |Exec(s, actions).users| && Exec(s, actions).users[user].credits >= 0
  {
    CreditsAreConserved(s, actions, user);
  }

  /** The store once others have taken their first `n` turns. */
  ghost function After(s: State, others: nat -> seq<Action>, n: nat): (t: State)
    requires Wf(s)
    ensures Wf(t)
  {
    if n == 0 then s else Exec(After(s, others, n - 1), others(n - 1))
  }

  lemma {:induction false} StillThere(s: State, others: nat -> seq<Action>, n: nat, user: nat)
    requires Wf(s) && user < |s.users|
    ensures user < |After(s, others, n).users| && After(s, others, n).users[user].credits >= 0
  {
    if n > 0 {
      StillThere(s, others, n - 1, user);
      UsersStay(After(s, others, n - 1), others(n - 1), user);
    }
  }

  lemma {:induction false} RequestWaits(s: State, others: nat -> seq<Action>, n: nat, q: nat)
    requires Wf(s) && q < |s.requests| && forall k :: LeavesRequest(q, others(k))
    ensures q < |After(s, others, n).requests| && After(s, others, n).requests[q] == s.requests[q]
  {
    if n > 0 {
      RequestWaits(s, others, n - 1, q);
      RequestStays(After(s, others, n - 1), others(n - 1), q);
    }
  }

  /** A balance and an unlimited flag read by two concurrent calls: one from the store
      `first`, the other from the store `second`. */
  function ReadApart(first: State, second: State, user: nat, flagFirst: bool): User
    requires user < |first.users| && user < |second.users|
  {
    if flagFirst then User(second.users[user].credits, first.users[user].unlimited)
    else User(first.users[user].credits, second.users[user].unlimited)
  }

  lemma ReopenedJob(s: State, q: nat, cap: nat)
    requires Wf(s) && q < |s.requests| && s.requests[q].Extend?
    ensures var s', request := Step(s, Reopen(q, cap)), s.requests[q];
      && request.job < |s.jobs|
      && s' == SetStatus(s, request.job, RUNNING).(
                 requests := s.requests[q := Queueing(request.user, request.job, cap, request.excluded)])
  {
    assert RequestWf(s, s.requests[q]);
  }

  lemma QueuedRun(s: State, q: nat)
    requires Wf(s) && q < |s.requests| && s.requests[q].Queueing?
    ensures var s', request := Step(s, Enqueue(q)), s.requests[q];
      && request.job < |s.jobs|
      && s' == s.(
           runs := s.runs + [NewRun(request.user, request.job, s.jobs[request.job].direct, request.cap,
               request.excluded)],
           requests := s.requests[q := Answered])
  {
    assert RequestWf(s, s.requests[q]);
  }

  lemma CancelledJob(s: State, q: nat)
    requires Wf(s) && q < |s.requests| && s.requests[q].Cancel?
    ensures s.requests[q].job < |s.jobs|
    ensures Step(s, CommitCancel(q)) ==
              SetStatus(s, s.requests[q].job, CANCELLED).(requests := s.requests[q := Answered])
  {
    assert RequestWf(s, s.requests[q]);
  }

  class LeadsService {
    const config: Config
    var store: State
    ghost const start: State
    ghost var history: seq<Action>

    /** The store is what the history makes of the state the service found. */
    ghost predicate Valid()
      reads this
    {
      config.Valid() && Reached(start, history, store)
    }

    constructor (config: Config, store: State)
      requires config.Valid() && Wf(store)
      ensures Valid() && this.config == config && this.store == store == start && history == []
    {
      this.config, this.store, this.start, this.history := config, store, store, [];
    }

    /** The rest of the system acts. */
    method Others(actions: seq<Action>)
      requires Valid()
      modifies this
      ensures Valid() && history == old(history) + actions && store == Exec(old(store), actions)
    {
      ghost var before, first := history, store;
      assert Reached(first, [], store);
      for i := 0 to |actions|
        invariant Valid() && history == before + actions[..i]
        invariant Reached(first, actions[..i], store)
      {
        Extended(start, history, store, actions[i]);
        Extended(first, actions[..i], store, actions[i]);
        assert actions[..i + 1] == actions[..i] + [actions[i]];
        store := Step(store, actions[i]);
        history := history + [actions[i]];
      }
      assert actions[..|actions|] == actions;
    }

    method HasPaidLeadFinderAccess(user: nat, billed: Billed, now: int) returns (paid: bool)
      requires user < |store.users|
      ensures paid <==> Paid(config, store.users[user].unlimited, billed, now)
    {
      if store.users[user].unlimited { return true; }
      if billed.boughtPack { return true; }
      if billed.subscription.None? { return false; }
      return Billing.HasActiveAccess(billed.subscription.value, config.grace, now);
    }

    /** The two concurrent reads of balance and unlimited flag, in either order. */
    method ReadBalance(user: nat, flagFirst: bool, between: seq<Action>) returns (balance: User)
      requires Valid() && user < |store.users|
      modifies this
      ensures Valid() && history == old(history) + between && store == Exec(old(store), between)
      ensures user < |store.users| && balance == ReadApart(old(store), store, user, flagFirst)
      ensures balance.credits >= 0
    {
      UsersStay(store, between, user);
      var first := store.users[user];
      Others(between);
      var second := store.users[user];
      balance := if flagFirst then User(second.credits, first.unlimited) else User(first.credits, second.unlimited);
    }

    // ── aiSearch ────────────────────────────────────────────────────────

    method CreateJob(user: nat, direct: bool, cap: nat, now: int) returns (job: nat, q: nat)
      requires Valid() && user < |store.users|
      modifies this
      ensures Valid() && history == old(history) + [StartSearch(user, cap, direct, now)]
      ensures job == |old(store).jobs| && q == |old(store).requests|
      ensures store == AiSearch(old(store), user, cap, direct, now)
    {
      Extended(start, history, store, StartSearch(user, cap, direct, now));
      job, q := |store.jobs|, |store.requests|;
      store := store.(
        jobs := store.jobs + [Job(user, direct, RUNNING, now, true)],
        requests := store.requests + [Queueing(user, job, cap, {})]);
      history := history + [StartSearch(user, cap, direct, now)];
    }

    /** `apolloQueue.add` */
    method AddToQueue(user: nat, job: nat, q: nat, cap: nat, excluded: set<nat>)
      requires Valid() && q < |store.requests| && store.requests[q] == Queueing(user, job, cap, excluded)
      modifies this
      ensures Valid() && history == old(history) + [Enqueue(q)]
      ensures job < |store.jobs| && store.jobs == old(store).jobs
      ensures store.runs == old(store).runs + [NewRun(user, job, store.jobs[job].direct, cap, excluded)]
    {
      Extended(start, history, store, Enqueue(q));
      QueuedRun(store, q);
      store := store.(
        runs := store.runs + [NewRun(user, job, store.jobs[job].direct, cap, excluded)],
        requests := store.requests[q := Answered]);
      history := history + [Enqueue(q)];
    }

    /** What `aiSearch` answers when others act between its reads: balance and flag, paid
        tier, today's searches. */
    ghost function AnswerApart(
      s: State, user: nat, billed: Billed, now: int, today: int, flagFirst: bool, others: nat -> seq<Action>): Answer
      requires config.Valid() && Wf(s) && user < |s.users|
    {
      StillThere(s, others, 1, user);
      StillThere(s, others, 2, user);
      SearchAnswer(config, ReadApart(s, After(s, others, 1), user, flagFirst),
                   Paid(config, After(s, others, 2).users[user].unlimited, billed, now),
                   JobsSince(After(s, others, 3).jobs, user, today))
    }

    method ReadSearchAllowance(
      user: nat, billed: Billed, now: int, today: int, flagFirst: bool, others: nat -> seq<Action>)
          returns (answer: Answer)
      requires Valid() && user < |store.users|
      modifies this
      ensures Valid() && user < |store.users|
      ensures answer == AnswerApart(old(store), user, billed, now, today, flagFirst, others)
      ensures store == After(old(store), others, if answer == Refused(OutOfCredits) then 1 else 3)
      ensures history ==
        if answer == Refused(OutOfCredits) then old(history) + others(0)
        else old(history) + others(0) + others(1) + others(2)
    {
      ghost var first := store;
      StillThere(first, others, 1, user);
      StillThere(first, others, 2, user);
      StillThere(first, others, 3, user);
      assert store == After(first, others, 0);
      var balance := ReadBalance(user, flagFirst, others(0));
      assert store == After(first, others, 1);
      if !balance.unlimited && balance.credits <= 0 { return Refused(OutOfCredits); }
      Others(others(1));
      assert store == After(first, others, 2);
      var isPaidTier := HasPaidLeadFinderAccess(user, billed, now);
      Others(others(2));
      assert store == After(first, others, 3);
      var searchesToday := JobsSince(store.jobs, user, today);
      if !isPaidTier && searchesToday >= FREE_SEARCHES_PER_DAY { return Refused(DailyLimitReached); }
      var maxResultsPerSearch := if isPaidTier then config.maxResults else FREE_RESULTS_PER_SEARCH;
      return Started(if balance.unlimited then maxResultsPerSearch else Min(balance.credits, maxResultsPerSearch));
    }

    /** `aiSearch`: a refused search writes nothing; a started one leaves a job and, in
        the next call, a run of it in the queue. `others(0)` to `others(4)` are what happens
        before and between the calls. */
    method StartAiSearch(
      user: nat, direct: bool, billed: Billed, now: int, today: int, flagFirst: bool, others: nat -> seq<Action>)
      returns (answer: Answer)
      requires Valid() && user < |store.users|
      requires LeavesRequest(|After(store, others, 4).requests|, others(4))
      modifies this
      ensures Valid()
      ensures answer == AnswerApart(old(store), user, billed, now, today, flagFirst, others)
      ensures answer.Refused? ==> store == After(old(store), others, if answer == Refused(OutOfCredits) then 1 else 3)
      ensures answer.Started? ==>
        && var job := |After(old(store), others, 4).jobs|;
        && job < |store.jobs| && |store.runs| > 0
        && store.runs[|store.runs| - 1] == NewRun(user, job, direct, answer.cap, {})
        && store.jobs[job] == Job(user, direct, store.jobs[job].status, now, true)
        && (others(4) == [] ==> store.jobs[job].status == RUNNING)
      ensures answer.Started? ==>
        history == old(history) + others(0) + others(1) + others(2) + others(3)
                   + [StartSearch(user, answer.cap, direct, now)] + others(4)
                   + [Enqueue(|After(old(store), others, 4).requests|)]
    {
      ghost var first := store;
      answer := ReadSearchAllowance(user, billed, now, today, flagFirst, others);
      if answer.Refused? { return; }
      StillThere(first, others, 4, user);
      Others(others(3));
      assert store == After(first, others, 4);
      var job, q := CreateJob(user, direct, answer.cap, now);
      RequestStays(store, others(4), q);
      JobStays(store, others(4), job);
      Others(others(4));
      AddToQueue(user, job, q, answer.cap, {});
    }

    // ── getMoreLeads ────────────────────────────────────────────────────

    /** The read of a job that is to be extended. */
    method ReadResults(user: nat, job: nat) returns (q: nat, excluded: set<nat>)
      requires Valid() && job < |store.jobs| && store.jobs[job].user == user
      requires store.jobs[job].status != RUNNING && store.jobs[job].filters
      modifies this
      ensures Valid() && history == old(history) + [AskExtend(user, job)]
      ensures excluded == PeopleOf(old(store).rows, job)
      ensures q == |old(store).requests| < |store.requests| && store.requests[q] == Extend(user, job, excluded)
      ensures store == AskMoreLeads(old(store), user, job)
      ensures |store.users| == |old(store).users|
    {
      Extended(start, history, store, AskExtend(user, job));
      q, excluded := |store.requests|, PeopleOf(store.rows, job);
      store := store.(requests := store.requests + [Extend(user, job, excluded)]);
      history := history + [AskExtend(user, job)];
    }

    method ReopenForMore(user: nat, job: nat, q: nat, cap: nat, excluded: set<nat>)
      requires Valid() && q < |store.requests| && store.requests[q] == Extend(user, job, excluded)
      modifies this
      ensures Valid() && history == old(history) + [Reopen(q, cap)]
      ensures job < |store.jobs| && store.jobs[job].status == RUNNING
      ensures q < |store.requests| && store.requests[q] == Queueing(user, job, cap, excluded)
    {
      Extended(start, history, store, Reopen(q, cap));
      ReopenedJob(store, q, cap);
      store := SetStatus(store, job, RUNNING).(requests := store.requests[q := Queueing(user, job, cap, excluded)]);
      history := history + [Reopen(q, cap)];
    }

    /** The reads of `getMoreLeads` after the job: paid access, then balance and flag.
        `others(0)` to `others(2)` are what happens before and between them. */
    method ReadAllowance(
      user: nat, count: Option<nat>, billed: Billed, now: int, flagFirst: bool, others: nat -> seq<Action>)
      returns (answer: Answer)
      requires Valid() && user < |store.users| && (count.Some? ==> count.value >= 1)
      modifies this
      ensures Valid()
      ensures user < |After(old(store), others, 1).users|
      ensures user < |After(old(store), others, 2).users| && user < |After(old(store), others, 3).users|
      ensures ReadApart(After(old(store), others, 2), After(old(store), others, 3), user, flagFirst).credits >= 0
      ensures answer == Refused(NotPaid) <==>
          !Paid(config, After(old(store), others, 1).users[user].unlimited, billed, now)
      ensures answer == Refused(NotPaid) ==>
        store == After(old(store), others, 1) && history == old(history) + others(0)
      ensures answer != Refused(NotPaid) ==>
        && store == After(old(store), others, 3) && history == old(history) + others(0) + others(1) + others(2)
        && answer == MoreAnswer(config, ReadApart(After(old(store), others, 2), store, user, flagFirst), count)
    {
      ghost var first := store;
      StillThere(first, others, 1, user);
      StillThere(first, others, 2, user);
      StillThere(first, others, 3, user);
      assert store == After(first, others, 0);
      Others(others(0));
      assert store == After(first, others, 1);
      var hasPaidAccess := HasPaidLeadFinderAccess(user, billed, now);
      if !hasPaidAccess { return Refused(NotPaid); }
      Others(others(1));
      assert store == After(first, others, 2);
      var balance := ReadBalance(user, flagFirst, others(2));
      assert store == After(first, others, 3);
      if !balance.unlimited && balance.credits <= 0 { return Refused(OutOfCredits); }
      var requested := if count.Some? then count.value else config.maxResults;
      return Started(Min(if balance.unlimited then requested else Min(requested, balance.credits), config.maxResults));
    }

    /** `getMoreLeads`: the job and its people are read first, then paid access, then the
        balance; only then is the job reopened, and in the next call its run queued.
        `others(0)` to `others(4)` are what happens in between. */
    method GetMoreLeads(
      user: nat, job: nat, count: Option<nat>, billed: Billed, now: int, flagFirst: bool, others: nat -> seq<Action>)
      returns (answer: Answer)
      requires Valid() && user < |store.users| && (count.Some? ==> count.value >= 1)
      requires forall n :: LeavesRequest(|store.requests|, others(n))
      modifies this
      ensures Valid()
      ensures answer == Refused(NotFound) <==> job >= |old(store).jobs| || old(store).jobs[job].user != user
      ensures answer == Refused(StillRunning) <==>
                job < |old(store).jobs| && old(store).jobs[job].user == user && old(store).jobs[job].status == RUNNING
      ensures answer == Refused(NoFilters) <==>
                && job < |old(store).jobs| && old(store).jobs[job].user == user
                     && old(store).jobs[job].status != RUNNING
                && !old(store).jobs[job].filters
      ensures answer == Refused(NotFound) || answer == Refused(StillRunning) || answer == Refused(NoFilters) ==>
                store == old(store) && history == old(history)
      ensures var asked := AskMoreLeads(old(store), user, job);
        answer == Refused(NotPaid) ==>
          && Wf(asked) && store == After(asked, others, 1)
               && history == old(history) + [AskExtend(user, job)] + others(0)
          && user < |store.users| && !Paid(config, store.users[user].unlimited, billed, now)
      ensures var asked := AskMoreLeads(old(store), user, job);
        answer == Refused(OutOfCredits) || answer.Started? ==>
          && Wf(asked) && user < |After(asked, others, 2).users| && user < |After(asked, others, 3).users|
          && var balance := ReadApart(After(asked, others, 2), After(asked, others, 3), user, flagFirst);
          && balance.credits >= 0 && answer == MoreAnswer(config, balance, count)
          && (answer.Refused? ==>
                store == After(asked, others, 3)
                && history == old(history) + [AskExtend(user, job)] + others(0) + others(1) + others(2))
      ensures answer.Started? ==>
        && history == old(history) + [AskExtend(user, job)] + others(0) + others(1) + others(2)
                      + others(3) + [Reopen(|old(store).requests|, answer.cap)]
                      + others(4) + [Enqueue(|old(store).requests|)]
        && job < |store.jobs| && |store.runs| > 0
        && store.runs[|store.runs| - 1] ==
             NewRun(user, job, store.jobs[job].direct, answer.cap, PeopleOf(old(store).rows, job))
        && (others(4) == [] ==> store.jobs[job].status == RUNNING)
    {
      if job >= |store.jobs| || store.jobs[job].user != user { return Refused(NotFound); }
      if store.jobs[job].status == RUNNING { return Refused(StillRunning); }
      if !store.jobs[job].filters { return Refused(NoFilters); }
      var q, excluded := ReadResults(user, job);
      RequestWaits(store, others, 4, q);
      ghost var asked := store;
      answer := ReadAllowance(user, count, billed, now, flagFirst, others);
      if answer.Refused? { return; }
      Others(others(3));
      assert store == After(asked, others, 4);
      ReopenForMore(user, job, q, answer.cap, excluded);
      RequestStays(store, others(4), q);
      Others(others(4));
      AddToQueue(user, job, q, answer.cap, excluded);
    }

    // ── cancelSearchJob ─────────────────────────────────────────────────

    method CommitCancelled(job: nat, q: nat)
      requires Valid() && q < |store.requests| && store.requests[q] == Cancel(job)
      modifies this
      ensures Valid() && history == old(history) + [CommitCancel(q)]
      ensures job < |store.jobs| && store.jobs[job].status == CANCELLED
    {
      Extended(start, history, store, CommitCancel(q));
      CancelledJob(store, q);
      store := SetStatus(store, job, CANCELLED).(requests := store.requests[q := Answered]);
      history := history + [CommitCancel(q)];
    }

    /** `cancelSearchJob`: None when there is no such search of this user, otherwise the
        status the caller is shown. The write does not look at the status again. */
    method CancelSearchJob(user: nat, job: nat, gap: seq<Action>) returns (shown: Option<JobStatus>)
      requires Valid() && LeavesRequest(|store.requests|, gap)
      modifies this
      ensures Valid()
      ensures shown.None? <==> job >= |old(store).jobs| || old(store).jobs[job].user != user
      ensures shown.None? || old(store).jobs[job].status != RUNNING ==> store == old(store) && history == old(history)
      ensures shown.Some? && old(store).jobs[job].status != RUNNING ==> shown == Some(old(store).jobs[job].status)
      ensures shown.Some? && old(store).jobs[job].status == RUNNING ==>
                && shown == Some(CANCELLED) && job < |store.jobs| && store.jobs[job].status == CANCELLED
                && history == old(history) + [AskCancel(user, job)] + gap + [CommitCancel(|old(store).requests|)]
    {
      if job >= |store.jobs| || store.jobs[job].user != user { return None; }
      if store.jobs[job].status != RUNNING { return Some(store.jobs[job].status); }
      var q := |store.requests|;
      Extended(start, history, store, AskCancel(user, job));
      store := store.(requests := store.requests + [Cancel(job)]);
      history := history + [AskCancel(user, job)];
      RequestStays(store, gap, q);
      Others(gap);
      CommitCancelled(job, q);
      return Some(CANCELLED);
    }
  }
}
