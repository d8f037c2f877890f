/** The free searches of a day: the count is read in one call and the job created in a
    later one (src/leads/leads.service.ts:250-290 and 674-695), so requests that overlap
    can all find the last free search. */
module DailyLimit {
  import opened Prelude
  import opened SearchJobs
  import Leads

  /** One user without a paid plan, on one day: the jobs table, and the requests that have
      passed the check and not created their job yet. */
  datatype Day = Day(jobs: seq<Job>, passed: nat)

  datatype Call =
    | Count
    | Create(direct: bool, now: int)
    | Elsewhere(job: Job)

  /** A call of this user's requests, or a job of somebody else. */
  function Take(d: Day, call: Call, user: nat, today: int): Day {
    match call
    case Count =>
      if Leads.JobsSince(d.jobs, user, today) < Leads.FREE_SEARCHES_PER_DAY then d.(passed := d.passed + 1) else d
    case Create(direct, now) =>
      if d.passed > 0 then Day(d.jobs + [Job(user, direct, RUNNING, now, true)], d.passed - 1) else d
    case Elsewhere(job) => if job.user != user then d.(jobs := d.jobs + [job]) else d
  }

  function Run(d: Day, calls: seq<Call>, user: nat, today: int): Day
    decreases |calls|
  {
    if calls == [] then d else Run(Take(d, calls[0], user, today), calls[1..], user, today)
  }

  /** The most requests ever between check and creation. */
  function Overlap(d: Day, calls: seq<Call>, user: nat, today: int): nat
    decreases |calls|
  {
    if calls == [] then d.passed
    else
      var later := Overlap(Take(d, calls[0], user, today), calls[1..], user, today);
      if d.passed <= later then later else d.passed
  }

  function Searches(d: Day, user: nat, today: int): nat { |Leads.SearchesOf(d.jobs, user, today)| }

  lemma OneMoreJob(jobs: seq<Job>, job: Job, user: nat, today: int)
    ensures |Leads.SearchesOf(jobs + [job], user, today)|
         == |Leads.SearchesOf(jobs, user, today)| + if job.user == user && job.createdAt >= today then 1 else 0
  {
    var more := if job.user == user && job.createdAt >= today then {|jobs|} else {};
    assert Leads.SearchesOf(jobs + [job], user, today) == Leads.SearchesOf(jobs, user, today) + more;
  }

  lemma TakeMoves(d: Day, call: Call, user: nat, today: int)
    ensures var d' := Take(d, call, user, today);
      && Searches(d', user, today) + d'.passed <= Searches(d, user, today) + d.passed + (if call.Count? then 1 else 0)
      && (call.Count? ==>
            && d'.jobs == d.jobs
            && d'.passed == d.passed + if Searches(d, user, today) < 4 then 1 else 0)
  {
    Leads.JobsSinceCounts(d.jobs, user, today);
    match call
    case Create(direct, now) => OneMoreJob(d.jobs, Job(user, direct, RUNNING, now, true), user, today);
    case Elsewhere(job) => OneMoreJob(d.jobs, job, user, today);
    case Count =>
  }

  /** Searches made and about to be made never exceed three plus the most requests that
      were ever between check and creation. */
  lemma {:induction false} BoundedByOverlap(d: Day, calls: seq<Call>, user: nat, today: int, most: nat)
    requires Overlap(d, calls, user, today) <= most && Searches(d, user, today) + d.passed <= 3 + most
    ensures var t := Run(d, calls, user, today); Searches(t, user, today) + t.passed <= 3 + most
    decreases |calls|
  {
    if calls != [] {
      TakeMoves(d, calls[0], user, today);
      BoundedByOverlap(Take(d, calls[0], user, today), calls[1..], user, today, most);
    }
  }

  // ── The bound is met ──────────────────────────────────────────────────

  function Repeat(n: nat, call: Call): seq<Call> { seq(n, _ => call) }

  lemma {:induction false} RunAppends(d: Day, a: seq<Call>, b: seq<Call>, user: nat, today: int)
    ensures Run(d, a + b, user, today) == Run(Run(d, a, user, today), b, user, today)
    ensures Overlap(d, a + b, user, today)
         == var first, second := Overlap(d, a, user, today), Overlap(Run(d, a, user, today), b, user, today);
            if first <= second then second else first
    decreases |a|
  {
    if a == [] {
      assert a + b == b;
      OverlapCoversStart(d, b, user, today);
    } else {
      assert (a + b)[1..] == a[1..] + b;
      RunAppends(Take(d, a[0], user, today), a[1..], b, user, today);
    }
  }

  lemma OverlapCoversStart(d: Day, calls: seq<Call>, user: nat, today: int)
    ensures d.passed <= Overlap(d, calls, user, today)
  {
  }

  lemma {:induction false} Counting(d: Day, n: nat, user: nat, today: int)
    requires Searches(d, user, today) < 4
    ensures Run(d, Repeat(n, Count), user, today) == d.(passed := d.passed + n)
    ensures Overlap(d, Repeat(n, Count), user, today) == d.passed + n
    decreases n
  {
    if n > 0 {
      TakeMoves(d, Count, user, today);
      assert Repeat(n, Count)[1..] == Repeat(n - 1, Count);
      Counting(d.(passed := d.passed + 1), n - 1, user, today);
    }
  }

  lemma {:induction false} CreatingAll(d: Day, n: nat, user: nat, today: int)
    requires n <= d.passed
    ensures var t := Run(d, Repeat(n, Create(false, today)), user, today);
      Searches(t, user, today) == Searches(d, user, today) + n && t.passed == d.passed - n
    ensures Overlap(d, Repeat(n, Create(false, today)), user, today) == d.passed
    decreases n
  {
    if n > 0 {
      var create := Create(false, today);
      assert Repeat(n, create)[1..] == Repeat(n - 1, create);
      OneMoreJob(d.jobs, Job(user, false, RUNNING, today, true), user, today);
      CreatingAll(Take(d, create, user, today), n - 1, user, today);
    }
  }

  /** `n` requests that all count before any of them creates its job. */
  lemma Together(d: Day, n: nat, user: nat, today: int) returns (calls: seq<Call>)
    requires d.passed == 0 && Searches(d, user, today) < 4
    ensures var t := Run(d, calls, user, today);
      Searches(t, user, today) == Searches(d, user, today) + n && t.passed == 0
    ensures Overlap(d, calls, user, today) == n
  {
    calls := Repeat(n, Count) + Repeat(n, Create(false, today));
    Counting(d, n, user, today);
    CreatingAll(d.(passed := n), n, user, today);
    RunAppends(d, Repeat(n, Count), Repeat(n, Create(false, today)), user, today);
  }

  lemma ThreeThenTogether(n: nat, user: nat, today: int) returns (calls: seq<Call>)
    requires n >= 1
    ensures Searches(Run(Day([], 0), calls, user, today), user, today) == 3 + n
    ensures Overlap(Day([], 0), calls, user, today) <= n
  {
    var d0 := Day([], 0);
    assert Leads.SearchesOf([], user, today) == {};
    var one := Together(d0, 1, user, today);
    var d1 := Run(d0, one, user, today);
    var two := Together(d1, 1, user, today);
    var d2 := Run(d1, two, user, today);
    var three := Together(d2, 1, user, today);
    var d3 := Run(d2, three, user, today);
    var last := Together(d3, n, user, today);
    RunAppends(d2, three, last, user, today);
    RunAppends(d1, two, three + last, user, today);
    RunAppends(d0, one, two + (three + last), user, today);
    calls := one + (two + (three + last));
  }

  /** The day's limit over every schedule from an empty table in which at most `most`
      requests overlap: no bound on the day's searches holds below three plus `most`, and
      that one does. The four of the free plan are kept exactly if requests never overlap. */
  lemma FreeLimitIff(most: nat, bound: nat, user: nat, today: int)
    requires most >= 1
    ensures (forall calls: seq<Call> :: Overlap(Day([], 0), calls, user, today) <= most ==>
               Searches(Run(Day([], 0), calls, user, today), user, today) <= bound)
            <==> bound >= 3 + most
  {
    assert Leads.SearchesOf([], user, today) == {};
    if bound >= 3 + most {
      forall calls: seq<Call> | Overlap(Day([], 0), calls, user, today) <= most
        ensures Searches(Run(Day([], 0), calls, user, today), user, today) <= bound
      {
        BoundedByOverlap(Day([], 0), calls, user, today, most);
      }
    } else {
      var calls := ThreeThenTogether(most, user, today);
    }
  }
}
