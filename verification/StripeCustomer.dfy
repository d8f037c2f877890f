/** The agreement protocol behind `getOrCreateStripeCustomer`
    (src/billing/stripe-customer.service.ts:23-65).

    Any number of requests for the same user run the same four calls: read the
    user row, create a Stripe customer, conditionally write its id, re-read the
    row if the write lost. Each call is one atomic step; a schedule is any list
    of request numbers, so it ranges over every interleaving. */
module StripeCustomer {
  import opened Prelude

  /** Where one request stands. Stripe numbers its customers from zero. */
  datatype Pc =
    | Reading
    | CreatingCustomer
    | Writing(customer: nat)
    | Rereading(customer: nat)
    | Returned(id: nat)

  /** `row` is None when there is no user row at all, Some(None) while its
      `stripe_customer_id` column is null. `customers` counts the customers
      Stripe has issued so far. */
  datatype State = State(row: Option<Option<nat>>, customers: nat, callers: seq<Pc>) {
    predicate Stored(id: nat) { row == Some(Some(id)) }
  }

  // ── The three database or Stripe operations that change something ──────

  function ReadRow(row: Option<Option<nat>>): Option<nat> {
    match row
    case Some(column) => column
    case None => None
  }

  /** `updateMany` guarded by "the column is still null": the new row and the count. */
  function ConditionalWrite(row: Option<Option<nat>>, id: nat): (Option<Option<nat>>, nat) {
    if row == Some(None) then (Some(Some(id)), 1) else (row, 0)
  }

  function Step(s: State, caller: nat): State
    requires caller < |s.callers|
  {
    match s.callers[caller]
    case Reading =>
      (match ReadRow(s.row)
       case Some(id) => s.(callers := s.callers[caller := Returned(id)])
       case None => s.(callers := s.callers[caller := CreatingCustomer]))
    case CreatingCustomer =>
      s.(customers := s.customers + 1, callers := s.callers[caller := Writing(s.customers)])
    case Writing(mine) =>
      var (row', count) := ConditionalWrite(s.row, mine);
      s.(row := row',
         callers := s.callers[caller := if count == 0 then Rereading(mine) else Returned(mine)])
    case Rereading(mine) =>
      (match ReadRow(s.row)
       case Some(winner) => s.(callers := s.callers[caller := Returned(winner)])
       case None => s.(callers := s.callers[caller := Returned(mine)]))
    case Returned(_) => s
  }

  predicate ValidSchedule(s: State, schedule: seq<nat>) {
    forall i :: 0 <= i < |schedule| ==> schedule[i] < |s.callers|
  }

  function Run(s: State, schedule: seq<nat>): (s': State)
    requires ValidSchedule(s, schedule)
    ensures |s'.callers| == |s.callers|
    decreases |schedule|
  {
    if schedule == [] then s else Run(Step(s, schedule[0]), schedule[1..])
  }

  lemma {:induction false} RunAppend(s: State, first: seq<nat>, second: seq<nat>)
    requires ValidSchedule(s, first) && ValidSchedule(s, second)
    ensures ValidSchedule(s, first + second)
    ensures Run(s, first + second) == Run(Run(s, first), second)
    decreases |first|
  {
    if first == [] {
      assert first + second == second;
    } else {
      assert (first + second)[1..] == first[1..] + second;
      RunAppend(Step(s, first[0]), first[1..], second);
    }
  }

  /** Requests have not begun; a stored id is one Stripe has already issued. */
  predicate Initial(s: State) {
    && (forall c :: 0 <= c < |s.callers| ==> s.callers[c] == Reading)
    && (ReadRow(s.row).Some? ==> ReadRow(s.row).value < s.customers)
  }

  /** What every interleaving keeps, relative to the state it began in. */
  predicate Invariant(start: State, s: State) {
    && (s.row.Some? <==> start.row.Some?)
    && (ReadRow(start.row).Some? ==> s.row == start.row && s.customers == start.customers)
    && start.customers <= s.customers
    && (ReadRow(s.row).Some? ==> ReadRow(s.row).value < s.customers)
    && (ReadRow(start.row).None? && ReadRow(s.row).Some? ==> start.customers <= ReadRow(s.row).value)
    && forall c {:trigger s.callers[c]} :: 0 <= c < |s.callers| ==> CallerInvariant(start, s, s.callers[c])
  }

  predicate CallerInvariant(start: State, s: State, pc: Pc) {
    match pc
    case Reading => true
    case CreatingCustomer => ReadRow(start.row).None?
    case Writing(mine) => ReadRow(start.row).None? && start.customers <= mine < s.customers
    case Rereading(mine) =>
      && ReadRow(start.row).None?
      && start.customers <= mine < s.customers
      && (s.row.Some? ==> ReadRow(s.row).Some?)
    case Returned(id) => s.row.Some? ==> s.Stored(id)
  }

  lemma {:induction false} StepKeepsInvariant(start: State, s: State, caller: nat)
    requires caller < |s.callers|
    requires Invariant(start, s)
    ensures Invariant(start, Step(s, caller))
  {
    var s' := Step(s, caller);
    forall c | 0 <= c < |s'.callers|
      ensures CallerInvariant(start, s', s'.callers[c])
    {
      assert CallerInvariant(start, s, s.callers[c]);
      assert CallerInvariant(start, s, s.callers[caller]);
    }
  }

  lemma {:induction false} RunKeepsInvariant(start: State, s: State, schedule: seq<nat>)
    requires ValidSchedule(s, schedule)
    requires Invariant(start, s)
    ensures Invariant(start, Run(s, schedule))
    decreases |schedule|
  {
    if schedule != [] {
      StepKeepsInvariant(start, s, schedule[0]);
      RunKeepsInvariant(start, Step(s, schedule[0]), schedule[1..]);
    }
  }

  // ── Main results ──────────────────────────────────────────────────────

  /** Once an id is stored no interleaving of any requests, in any state, replaces it. */
  lemma {:induction false} StoredIdIsWriteOnce(s: State, schedule: seq<nat>, id: nat)
    requires ValidSchedule(s, schedule)
    requires s.Stored(id)
    ensures Run(s, schedule).Stored(id)
    decreases |schedule|
  {
    if schedule != [] {
      StoredIdIsWriteOnce(Step(s, schedule[0]), schedule[1..], id);
    }
  }

  predicate Agreed(s: State) {
    forall c :: 0 <= c < |s.callers| && s.callers[c].Returned? ==> s.Stored(s.callers[c].id)
  }

  /** Every request that has returned, returned the one id that is stored. */
  lemma EveryCallerReturnsTheStoredId(s: State, schedule: seq<nat>)
    requires Initial(s) && s.row.Some?
    requires ValidSchedule(s, schedule)
    ensures Agreed(Run(s, schedule))
  {
    RunKeepsInvariant(s, s, schedule);
    var s' := Run(s, schedule);
    forall c | 0 <= c < |s'.callers| && s'.callers[c].Returned?
      ensures s'.Stored(s'.callers[c].id)
    {
      assert CallerInvariant(s, s', s'.callers[c]);
    }
  }

  lemma MissingUserBreaksAgreement(s: State) returns (alone: seq<nat>)
    requires Initial(s) && |s.callers| > 0 && s.row.None?
    ensures ValidSchedule(s, alone) && !Agreed(Run(s, alone))
  {
    alone := [0, 0, 0, 0];
    var s1 := Step(s, 0);
    var s2 := Step(s1, 0);
    var s3 := Step(s2, 0);
    var s4 := Step(s3, 0);
    assert s1 == s.(callers := s.callers[0 := CreatingCustomer]);
    assert s2 == s.(customers := s.customers + 1, callers := s.callers[0 := Writing(s.customers)]);
    assert s3 == s2.(callers := s.callers[0 := Rereading(s.customers)]);
    assert s4 == s2.(callers := s.callers[0 := Returned(s.customers)]);
    Single(s3, 0);
    assert alone[1..] == [0, 0, 0] && alone[1..][1..] == [0, 0] && alone[1..][1..][1..] == [0];
    assert Run(s, alone) == Run(s1, alone[1..]);
    assert Run(s1, alone[1..]) == Run(s2, alone[1..][1..]);
    assert Run(s2, alone[1..][1..]) == Run(s3, alone[1..][1..][1..]);
    assert s4.callers[0] == Returned(s.customers) && !s4.Stored(s.customers);
  }

  /** Without a user row the fallback hands every request its own customer, so
      agreement over all interleavings holds exactly when the row exists. */
  lemma AgreementIffUserExists(s: State)
    requires Initial(s) && |s.callers| > 0
    ensures (forall schedule {:trigger Run(s, schedule)} :: ValidSchedule(s, schedule) ==> Agreed(Run(s, schedule)))
            <==> s.row.Some?
  {
    if s.row.Some? {
      forall schedule | ValidSchedule(s, schedule)
        ensures Agreed(Run(s, schedule))
      {
        EveryCallerReturnsTheStoredId(s, schedule);
      }
    } else {
      var alone := MissingUserBreaksAgreement(s);
    }
  }

  /** The customers Stripe issued while its counter went from `lo` to `hi`. */
  function Issued(lo: nat, hi: nat): (ids: set<nat>)
    requires lo <= hi
    ensures forall id :: id in ids <==> lo <= id < hi
    ensures |ids| == hi - lo
    decreases hi
  {
    if lo == hi then {} else Issued(lo, hi - 1) + {hi - 1}
  }

  /** Customers created by this run that the user row does not refer to. */
  function Orphans(start: State, s: State): set<nat>
    requires start.customers <= s.customers
  {
    set id | id in Issued(start.customers, s.customers) && !s.Stored(id)
  }

  /** A user who already has a customer never costs another; otherwise exactly one
      of the customers created is kept as soon as any request has returned. */
  lemma OrphanCount(s: State, schedule: seq<nat>, finished: nat)
    requires Initial(s) && s.row.Some?
    requires ValidSchedule(s, schedule)
    requires finished < |s.callers| && Run(s, schedule).callers[finished].Returned?
    ensures Run(s, schedule).customers >= s.customers
    ensures ReadRow(s.row).Some? ==> Run(s, schedule).customers == s.customers
    ensures ReadRow(s.row).None? ==> |Orphans(s, Run(s, schedule))| == Run(s, schedule).customers - s.customers - 1
  {
    var s' := Run(s, schedule);
    RunKeepsInvariant(s, s, schedule);
    EveryCallerReturnsTheStoredId(s, schedule);
    if ReadRow(s.row).None? {
      var kept := s'.callers[finished].id;
      assert Orphans(s, s') == Issued(s.customers, s'.customers) - {kept};
    }
  }

  // ── The request handler itself ────────────────────────────────────────

  /** The database row, Stripe's counter and the standing of every concurrent
      request. `GetOrCreateStripeCustomer` is the handler in the source's own
      shape; `before`, `afterRead`, ... are what the other requests do between
      its calls. */
  class StripeCustomerService {
    var row: Option<Option<nat>>
    var customers: nat
    var callers: seq<Pc>

    constructor (row: Option<Option<nat>>, customers: nat, requests: nat)
      ensures Snapshot() == State(row, customers, seq(requests, _ => Reading))
    {
      this.row := row;
      this.customers := customers;
      this.callers := seq(requests, _ => Reading);
    }

    function Snapshot(): State
      reads this
    {
      State(row, customers, callers)
    }

    /** Other requests take steps; none of them is request `me`. */
    method Others(me: nat, schedule: seq<nat>)
      requires me < |callers|
      requires ForOthers(Snapshot(), me, schedule)
      modifies this
      ensures Snapshot() == Run(old(Snapshot()), schedule)
      ensures |callers| == old(|callers|) && callers[me] == old(callers[me])
    {
      ghost var start := Snapshot();
      for i := 0 to |schedule|
        invariant |callers| == |start.callers| && callers[me] == start.callers[me]
        invariant ValidSchedule(start, schedule[..i])
        invariant Snapshot() == Run(start, schedule[..i])
      {
        ghost var soFar := schedule[..i];
        RunAppend(start, soFar, [schedule[i]]);
        assert schedule[..i + 1] == soFar + [schedule[i]];
        assert Run(Snapshot(), [schedule[i]]) == Step(Snapshot(), schedule[i]) by {
          assert [schedule[i]][1..] == [];
        }
        var next := Step(Snapshot(), schedule[i]);
        row, customers, callers := next.row, next.customers, next.callers;
      }
      assert schedule[..|schedule|] == schedule;
    }

    /** `users.findById`, and the early return when the column is set. */
    method FindUser(me: nat) returns (user: Option<nat>)
      requires me < |callers| && callers[me] == Reading
      modifies this
      ensures Snapshot() == Step(old(Snapshot()), me)
      ensures callers[me] == match user case Some(id) => Returned(id) case None => CreatingCustomer
    {
      user := ReadRow(row);
      callers := callers[me := match user case Some(id) => Returned(id) case None => CreatingCustomer];
    }

    method CreateCustomer(me: nat) returns (customer: nat)
      requires me < |callers| && callers[me] == CreatingCustomer
      modifies this
      ensures Snapshot() == Step(old(Snapshot()), me)
      ensures callers[me] == Writing(customer)
    {
      customer := customers;
      customers := customers + 1;
      callers := callers[me := Writing(customer)];
    }

    method UpdateManyWhereNull(me: nat, customer: nat) returns (count: nat)
      requires me < |callers| && callers[me] == Writing(customer)
      modifies this
      ensures Snapshot() == Step(old(Snapshot()), me)
      ensures callers[me] == if count == 0 then Rereading(customer) else Returned(customer)
    {
      var write := ConditionalWrite(row, customer);
      row, count := write.0, write.1;
      callers := callers[me := if count == 0 then Rereading(customer) else Returned(customer)];
    }

    method FindWinner(me: nat, customer: nat) returns (winner: Option<nat>)
      requires me < |callers| && callers[me] == Rereading(customer)
      modifies this
      ensures Snapshot() == Step(old(Snapshot()), me)
      ensures callers[me] == match winner case Some(id) => Returned(id) case None => Returned(customer)
    {
      winner := ReadRow(row);
      callers := callers[me := match winner case Some(id) => Returned(id) case None => Returned(customer)];
    }

    /** Whatever the other requests do in between, the handler is one thread of
        the step machine and its result is what that thread returns. */
    method GetOrCreateStripeCustomer(me: nat, before: seq<nat>, afterRead: seq<nat>, afterCreate: seq<nat>,
        afterWrite: seq<nat>)
      returns (id: nat, ghost trace: seq<nat>)
      requires me < |callers| && callers[me] == Reading
      requires ForOthers(Snapshot(), me, before) && ForOthers(Snapshot(), me, afterRead)
      requires ForOthers(Snapshot(), me, afterCreate) && ForOthers(Snapshot(), me, afterWrite)
      modifies this
      ensures Reached(old(Snapshot()), trace, Snapshot())
      ensures me < |callers| && callers[me] == Returned(id)
    {
      ghost var start := Snapshot();
      Others(me, before);
      ghost var s0 := Snapshot();
      var user := FindUser(me);
      trace := before + [me];
      Extend(start, before, s0, [me]);
      if user.Some? {
        return user.value, trace;
      }

      ghost var s1 := Snapshot();
      Others(me, afterRead);
      Extend(start, trace, s1, afterRead);
      ghost var s2 := Snapshot();
      var customer := CreateCustomer(me);
      Extend(start, trace + afterRead, s2, [me]);
      trace := trace + afterRead + [me];

      ghost var s3 := Snapshot();
      Others(me, afterCreate);
      Extend(start, trace, s3, afterCreate);
      ghost var s4 := Snapshot();
      var count := UpdateManyWhereNull(me, customer);
      Extend(start, trace + afterCreate, s4, [me]);
      trace := trace + afterCreate + [me];

      if count == 0 {
        ghost var s5 := Snapshot();
        Others(me, afterWrite);
        Extend(start, trace, s5, afterWrite);
        ghost var s6 := Snapshot();
        var winner := FindWinner(me, customer);
        Extend(start, trace + afterWrite, s6, [me]);
        trace := trace + afterWrite + [me];
        if winner.Some? {
          return winner.value, trace;
        }
      }
      return customer, trace;
    }
  }

  ghost predicate ForOthers(s: State, me: nat, schedule: seq<nat>) {
    ValidSchedule(s, schedule) && me !in schedule
  }

  ghost predicate Reached(start: State, trace: seq<nat>, s: State) {
    ValidSchedule(start, trace) && s == Run(start, trace)
  }

  lemma Extend(start: State, trace: seq<nat>, s: State, more: seq<nat>)
    requires Reached(start, trace, s)
    requires ValidSchedule(start, more)
    ensures ValidSchedule(s, more)
    ensures Reached(start, trace + more, Run(s, more))
    ensures |more| == 1 ==> Run(s, more) == Step(s, more[0])
  {
    RunAppend(start, trace, more);
    if |more| == 1 {
      assert more == [more[0]];
      Single(s, more[0]);
    }
  }

  lemma Single(s: State, caller: nat)
    requires caller < |s.callers|
    ensures ValidSchedule(s, [caller]) && Run(s, [caller]) == Step(s, caller)
  {
    assert [caller][1..] == [];
  }
}
