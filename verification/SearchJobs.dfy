/** Lead Finder searches as a state machine over the shared store
    (src/leads/apollo-search.processor.ts, src/leads/leads.service.ts).

    Every Prisma or Apollo call of every worker, webhook delivery, "get more" and
    "cancel" request is one atomic step; a list of actions is one interleaving.
    Any call of a worker may throw. */
module SearchJobs {
  import opened Prelude
  import opened OverFetch

  datatype JobStatus = RUNNING | COMPLETED | CANCELLED | FAILED

  datatype RowStatus = Pending | Enriched | Failed | Skipped

  datatype User = User(credits: int, unlimited: bool)

  /** `direct` is whether the stored filters name a person; `filters` whether there are
      any, which searches older than that column have not. */
  datatype Job = Job(user: nat, direct: bool, status: JobStatus, createdAt: int, filters: bool)

  /** A result row. `run`, `slot` and `paid` are bookkeeping the database does not
      keep: which worker run created the row, for which candidate, and whether the
      enrichment it records was paid for with a credit. */
  datatype Row = Row(job: nat, user: nat, person: Person, status: RowStatus, run: nat, slot: nat, paid: bool)

  /** The next call of a worker run. `charged` tells whether the reservation it is
      working on took a credit (false: the account was unlimited at that moment). */
  datatype Pc =
    | Searching
    | Creating
    | Checking
    | ReadingFlag
    | Decrementing
    | Enriching(charged: bool)
    | Recording(charged: bool)
    | ReadingRefundFlag(charged: bool)
    | Refunding(charged: bool)
    | RecordingMiss
    | SkippingRest(stop: bool)
    | Completing(audited: bool)
    | Auditing
    | Failing
    | Finished(clean: bool)

  /** One run of the queue worker. `next` is the loop position; `calls`, `spent`,
      `stranded` and `minted` count what the run has done: enrichment calls begun,
      credits taken minus returned, credits kept without a row or a refund, and
      refunds of reservations that had cost nothing. */
  datatype Run = Run(
    user: nat, job: nat, direct: bool, cap: nat, excluded: set<Person>,
    candidates: seq<Person>, ids: seq<Option<nat>>, next: nat, pc: Pc,
    calls: nat, spent: int, stranded: nat, minted: nat)

  /** A webhook delivery that grants credits: the balance first, then the ledger row. */
  datatype Phase = Incrementing | WritingGrant | Settled | Dead(granted: bool)

  datatype Delivery = Delivery(user: nat, credits: nat, phase: Phase)

  datatype Grant = Grant(user: nat, credits: nat)

  /** An HTTP request between two of its calls: an extension or a cancel that has read
      the job and not yet written it, or a search whose run is not in the queue yet. */
  datatype Request =
    | Extend(user: nat, job: nat, excluded: set<Person>)
    | Queueing(user: nat, job: nat, cap: nat, excluded: set<Person>)
    | Cancel(job: nat)
    | Answered

  datatype State = State(
    users: seq<User>, jobs: seq<Job>, rows: seq<Row>, runs: seq<Run>,
    deliveries: seq<Delivery>, ledger: seq<Grant>, requests: seq<Request>)

  /** What the outside world answers to the call a worker makes. */
  datatype Input = Tick | Found(people: seq<Person>) | Hit(found: bool) | Slot(k: nat) | Throw

  datatype Action =
    | StartSearch(user: nat, cap: nat, direct: bool, now: int)
    | AskExtend(user: nat, job: nat)
    | Reopen(request: nat, cap: nat)
    | Enqueue(request: nat)
    | AskCancel(user: nat, job: nat)
    | CommitCancel(request: nat)
    | SetUnlimited(user: nat, unlimited: bool)
    | Deliver(user: nat, credits: nat)
    | DeliverStep(delivery: nat, throws: bool)
    | RunStep(run: nat, input: Input)

  // ── Database operations ───────────────────────────────────────────────

  function AddCredits(s: State, user: nat, amount: int): State
    requires user < |s.users|
  {
    s.(users := s.users[user := s.users[user].(credits := s.users[user].credits + amount)])
  }

  function SetStatus(s: State, job: nat, status: JobStatus): State
    requires job < |s.jobs|
  {
    s.(jobs := s.jobs[job := s.jobs[job].(status := status)])
  }

  function SetRun(s: State, r: nat, run: Run): State
    requires r < |s.runs|
  {
    s.(runs := s.runs[r := run])
  }

  function SkipRow(row: Row, job: nat): Row {
    if row.job == job && row.status == Pending then row.(status := Skipped) else row
  }

  /** `updateMany({ where: { jobId, status: 'pending' }, data: { status: 'skipped' } })` */
  function SkipPending(s: State, job: nat): State {
    s.(rows := seq(|s.rows|, i requires 0 <= i < |s.rows| => SkipRow(s.rows[i], job)))
  }

  function PeopleOf(rows: seq<Row>, job: nat): set<Person> {
    set id | 0 <= id < |rows| && rows[id].job == job :: rows[id].person
  }

  // ── Worker steps ──────────────────────────────────────────────────────

  function NewRun(user: nat, job: nat, direct: bool, cap: nat, excluded: set<Person>): Run {
    Run(user, job, direct, cap, excluded, [], [], 0,
        if direct then ReadingFlag else Searching, 0, 0, 0, 0)
  }

  function Holding(pc: Pc): bool {
    match pc
    case Enriching(charged) => charged
    case Recording(charged) => charged
    case ReadingRefundFlag(charged) => charged
    case Refunding(charged) => charged
    case _ => false
  }

  function AsCount(b: bool): nat { if b then 1 else 0 }

  /** The row the run writes for its current candidate. A criteria search updates
      the row it created as pending; a direct match only now creates its one row. */
  function WriteResult(s: State, r: nat, status: RowStatus, paid: bool): State
    requires r < |s.runs|
  {
    var run := s.runs[r];
    if run.direct then
      s.(rows := s.rows + [Row(run.job, run.user, 0, status, r, 0, paid)],
         runs := s.runs[r := run.(next := run.next + 1, pc := Completing(true))])
    else if run.next < |run.ids| && run.ids[run.next].Some? && run.ids[run.next].value < |s.rows| then
      var id := run.ids[run.next].value;
      s.(rows := s.rows[id := s.rows[id].(status := status, paid := paid)],
         runs := s.runs[r := run.(next := run.next + 1, pc := Checking)])
    else s
  }

  function CreateRow(s: State, r: nat, k: nat): State
    requires r < |s.runs|
  {
    var run := s.runs[r];
    if k < |run.ids| && k < |run.candidates| && run.ids[k].None? then
      s.(rows := s.rows + [Row(run.job, run.user, run.candidates[k], Pending, r, k, false)],
         runs := s.runs[r := run.(ids := run.ids[k := Some(|s.rows|)])])
    else s
  }

  /** An exception: whatever reservation the run holds is never refunded. */
  function ThrowStep(s: State, r: nat): State
    requires r < |s.runs|
  {
    var run := s.runs[r];
    match run.pc
    case Finished(_) => s
    case Failing => SetRun(s, r, run.(pc := Finished(false)))
    case _ => SetRun(s, r, run.(pc := Failing, stranded := run.stranded + AsCount(Holding(run.pc))))
  }

  function SearchStep(s: State, r: nat, people: seq<Person>): State
    requires r < |s.runs|
  {
    var run := s.runs[r];
    var candidates := Candidates(people, run.excluded, run.cap);
    if run.pc != Searching then s
    else if candidates == [] then SetRun(s, r, run.(pc := Completing(false)))
    else SetRun(s, r, run.(pc := Creating, candidates := candidates, ids := seq(|candidates|, _ => None)))
  }

  /** `tryReserveCredit`: read the unlimited flag, then decrement if above zero.
      The enrichment call begins as soon as the reservation succeeds. */
  function ReserveStep(s: State, r: nat): State
    requires r < |s.runs| && s.runs[r].user < |s.users|
  {
    var run := s.runs[r];
    if run.pc == ReadingFlag then
      if s.users[run.user].unlimited then
        SetRun(s, r, run.(pc := Enriching(false), calls := run.calls + 1))
      else SetRun(s, r, run.(pc := Decrementing))
    else if s.users[run.user].credits > 0 then
      SetRun(AddCredits(s, run.user, -1), r,
             run.(pc := Enriching(true), calls := run.calls + 1, spent := run.spent + 1))
    else SetRun(s, r, run.(pc := if run.direct then Completing(false) else SkippingRest(false)))
  }

  /** `refundCredit`: read the unlimited flag, then increment. */
  function RefundStep(s: State, r: nat): State
    requires r < |s.runs| && s.runs[r].user < |s.users|
    requires s.runs[r].pc.ReadingRefundFlag? || s.runs[r].pc.Refunding?
  {
    var run := s.runs[r];
    if run.pc.ReadingRefundFlag? then
      if s.users[run.user].unlimited then
        SetRun(s, r, run.(pc := RecordingMiss, stranded := run.stranded + AsCount(run.pc.charged)))
      else SetRun(s, r, run.(pc := Refunding(run.pc.charged)))
    else
      SetRun(AddCredits(s, run.user, 1), r,
             run.(pc := RecordingMiss, spent := run.spent - 1, minted := run.minted + AsCount(!run.pc.charged)))
  }

  function TickStep(s: State, r: nat): State
    requires r < |s.runs|
    requires s.runs[r].user < |s.users| && s.runs[r].job < |s.jobs|
  {
    var run := s.runs[r];
    match run.pc
    case Creating =>
      if None in run.ids then s else SetRun(s, r, run.(pc := Checking))
    case Checking =>
      if run.next >= |run.candidates| then SetRun(s, r, run.(pc := Completing(true)))
      else if s.jobs[run.job].status == CANCELLED then SetRun(s, r, run.(pc := SkippingRest(true)))
      else SetRun(s, r, run.(pc := ReadingFlag))
    case ReadingFlag => ReserveStep(s, r)
    case Decrementing => ReserveStep(s, r)
    case Recording(charged) => WriteResult(s, r, Enriched, charged)
    case ReadingRefundFlag(_) => RefundStep(s, r)
    case Refunding(_) => RefundStep(s, r)
    case RecordingMiss => WriteResult(s, r, Failed, false)
    case SkippingRest(stop) =>
      SetRun(SkipPending(s, run.job), r, run.(pc := if stop then Finished(true) else Completing(true)))
    case Completing(audited) =>
      SetRun(SetStatus(s, run.job, COMPLETED), r, run.(pc := if audited then Auditing else Finished(true)))
    case Auditing => SetRun(s, r, run.(pc := Finished(true)))
    case Failing => SetRun(SetStatus(s, run.job, FAILED), r, run.(pc := Finished(false)))
    case Searching => s
    case Enriching(_) => s
    case Finished(_) => s
  }

  function WorkerStep(s: State, r: nat, input: Input): State
    requires r < |s.runs|
    requires s.runs[r].user < |s.users| && s.runs[r].job < |s.jobs|
  {
    var run := s.runs[r];
    match input
    case Throw => ThrowStep(s, r)
    case Found(people) => SearchStep(s, r, people)
    case Slot(k) =>
      // Promise.all: the other creates go on after one of them has thrown.
      if run.pc == Creating || run.pc == Failing || run.pc == Finished(false) then CreateRow(s, r, k) else s
    case Hit(found) =>
      if run.pc.Enriching? then
        SetRun(s, r, run.(pc := if found then Recording(run.pc.charged) else ReadingRefundFlag(run.pc.charged)))
      else s
    case Tick => TickStep(s, r)
  }

  function DeliveryStep(s: State, d: nat, throws: bool): State
    requires d < |s.deliveries|
  {
    var delivery := s.deliveries[d];
    match delivery.phase
    case Incrementing =>
      if throws || delivery.user >= |s.users| then
        s.(deliveries := s.deliveries[d := delivery.(phase := Dead(false))])
      else
        AddCredits(s.(deliveries := s.deliveries[d := delivery.(phase := WritingGrant)]),
                   delivery.user, delivery.credits)
    case WritingGrant =>
      if throws then s.(deliveries := s.deliveries[d := delivery.(phase := Dead(true))])
      else s.(deliveries := s.deliveries[d := delivery.(phase := Settled)],
              ledger := s.ledger + [Grant(delivery.user, delivery.credits)])
    case _ => s
  }

  // ── Request handlers ──────────────────────────────────────────────────

  /** `aiSearch`: the job row is created RUNNING; queueing its run is the next call. */
  function AiSearch(s: State, user: nat, cap: nat, direct: bool, now: int): State {
    if user < |s.users| then
      s.(jobs := s.jobs + [Job(user, direct, RUNNING, now, true)],
         requests := s.requests + [Queueing(user, |s.jobs|, cap, {})])
    else s
  }

  /** The read of the job that begins `getMoreLeads`: the people found so far are the
      run's exclusions. */
  function AskMoreLeads(s: State, user: nat, job: nat): State {
    if job < |s.jobs| && s.jobs[job].user == user && s.jobs[job].status != RUNNING && s.jobs[job].filters then
      s.(requests := s.requests + [Extend(user, job, PeopleOf(s.rows, job))])
    else s
  }

  /** `getMoreLeads` once its checks have passed and set the cap: the job is RUNNING
      again. A refused request never gets here. */
  function ReopenJob(s: State, q: nat, cap: nat): State
    requires q < |s.requests| && s.requests[q].Extend? ==> s.requests[q].job < |s.jobs|
  {
    if q < |s.requests| && s.requests[q].Extend? then
      var request := s.requests[q];
      SetStatus(s, request.job, RUNNING).(
        requests := s.requests[q := Queueing(request.user, request.job, cap, request.excluded)])
    else s
  }

  /** The last call of `aiSearch` and of `getMoreLeads`: a run in the queue. */
  function QueueRun(s: State, q: nat): State
    requires q < |s.requests| && s.requests[q].Queueing? ==> s.requests[q].job < |s.jobs|
  {
    if q < |s.requests| && s.requests[q].Queueing? then
      var request := s.requests[q];
      s.(runs := s.runs + [NewRun(request.user, request.job, s.jobs[request.job].direct, request.cap,
          request.excluded)],
         requests := s.requests[q := Answered])
    else s
  }

  /** `cancelSearchJob`: the read ... */
  function AskCancelJob(s: State, user: nat, job: nat): State {
    if job < |s.jobs| && s.jobs[job].user == user && s.jobs[job].status == RUNNING then
      s.(requests := s.requests + [Cancel(job)])
    else s
  }

  /** ... and the write, which no longer looks at the status. */
  function CancelJob(s: State, q: nat): State
    requires q < |s.requests| && s.requests[q].Cancel? ==> s.requests[q].job < |s.jobs|
  {
    if q < |s.requests| && s.requests[q].Cancel? then
      SetStatus(s, s.requests[q].job, CANCELLED).(requests := s.requests[q := Answered])
    else s
  }

  function SetUnlimitedAccess(s: State, user: nat, unlimited: bool): State {
    if user < |s.users| then s.(users := s.users[user := s.users[user].(unlimited := unlimited)]) else s
  }

  // ── The whole system ──────────────────────────────────────────────────

  function Step(s: State, a: Action): State
    requires Wf(s)
  {
    match a
    case StartSearch(user, cap, direct, now) => AiSearch(s, user, cap, direct, now)
    case AskExtend(user, job) => AskMoreLeads(s, user, job)
    case Reopen(q, cap) => (assert q < |s.requests| ==> RequestWf(s, s.requests[q]); ReopenJob(s, q, cap))
    case Enqueue(q) => (assert q < |s.requests| ==> RequestWf(s, s.requests[q]); QueueRun(s, q))
    case AskCancel(user, job) => AskCancelJob(s, user, job)
    case CommitCancel(q) => (assert q < |s.requests| ==> RequestWf(s, s.requests[q]); CancelJob(s, q))
    case SetUnlimited(user, unlimited) => SetUnlimitedAccess(s, user, unlimited)
    case Deliver(user, credits) => s.(deliveries := s.deliveries + [Delivery(user, credits, Incrementing)])
    case DeliverStep(d, throws) => if d < |s.deliveries| then DeliveryStep(s, d, throws) else s
    case RunStep(r, input) =>
      if r < |s.runs| then
        assert RunWf(s, r, s.runs[r]);
        WorkerStep(s, r, input)
      else s
  }

  // ── Well-formed states: the invariant of every interleaving ───────────

  predicate InLoop(pc: Pc) {
    pc.ReadingFlag? || pc.Decrementing? || pc.Enriching? || pc.Recording? ||
    pc.ReadingRefundFlag? || pc.Refunding? || pc.RecordingMiss?
  }

  predicate Ended(pc: Pc) {
    pc.Completing? || pc.Auditing? || pc == Finished(true)
  }

  /** Row `id` belongs to the run that created it, and only processed rows are enriched. */
  ghost predicate RowWf(s: State, id: nat, row: Row) {
    && row.run < |s.runs|
    && row.job == s.runs[row.run].job
    && row.user == s.runs[row.run].user
    && (row.status == Enriched ==> row.slot < s.runs[row.run].next)
    && (s.runs[row.run].direct ==> row.status != Pending)
    && (!s.runs[row.run].direct ==>
          row.slot < |s.runs[row.run].ids| && s.runs[row.run].ids[row.slot] == Some(id))
  }

  ghost predicate SlotWf(s: State, r: nat, run: Run, k: nat)
    requires k < |run.ids| == |run.candidates|
  {
    run.ids[k].Some? ==>
      var id := run.ids[k].value;
      && id < |s.rows|
      && s.rows[id].run == r && s.rows[id].slot == k
      && s.rows[id].person == run.candidates[k]
      && (k < run.next || Ended(run.pc) ==> s.rows[id].status != Pending)
  }

  ghost predicate RunWf(s: State, r: nat, run: Run) {
    && run.user < |s.users|
    && run.job < |s.jobs|
    && s.jobs[run.job].user == run.user
    && |run.ids| == |run.candidates| <= run.cap
    && (forall k :: 0 <= k < |run.candidates| ==> run.candidates[k] !in run.excluded)
    && (forall k {:trigger run.ids[k]} :: 0 <= k < |run.ids| ==> SlotWf(s, r, run, k))
    && (run.direct ==>
          && run.ids == []
          && !run.pc.Searching? && !run.pc.Creating? && !run.pc.Checking? && !run.pc.SkippingRest?
          && run.next <= 1
          && (InLoop(run.pc) ==> run.next == 0))
    && (!run.direct ==>
          && run.next <= |run.candidates|
          && (run.pc.Searching? ==> run.candidates == [])
          && (run.pc.Searching? || run.pc.Creating? ==> run.next == 0)
          && (None in run.ids ==> run.next == 0)
          && (InLoop(run.pc) ==> run.next < |run.candidates|)
          && (InLoop(run.pc) || run.pc.Checking? || run.pc.SkippingRest? || Ended(run.pc) ==> None !in run.ids))
  }

  ghost predicate RequestWf(s: State, request: Request) {
    match request
    case Queueing(user, job, _, _) => job < |s.jobs| && s.jobs[job].user == user
    case Extend(user, job, _) => job < |s.jobs| && s.jobs[job].user == user
    case Cancel(job) => job < |s.jobs|
    case Answered => true
  }

  ghost predicate Wf(s: State) {
    && (forall u :: 0 <= u < |s.users| ==> s.users[u].credits >= 0)
    && (forall j :: 0 <= j < |s.jobs| ==> s.jobs[j].user < |s.users|)
    && (forall id {:trigger s.rows[id]} :: 0 <= id < |s.rows| ==> RowWf(s, id, s.rows[id]))
    && (forall r {:trigger s.runs[r]} :: 0 <= r < |s.runs| ==> RunWf(s, r, s.runs[r]))
    && (forall q {:trigger s.requests[q]} :: 0 <= q < |s.requests| ==> RequestWf(s, s.requests[q]))
  }
}
