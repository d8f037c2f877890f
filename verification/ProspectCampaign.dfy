/** The cold-outreach queue: uploads, the capped daily drip, and what webhooks and
    registrations do to it (src/prospect-campaign/prospect-campaign.service.ts).
    Each handler is one step. Queue rows are in order of creation. */
module ProspectCampaign {
  type Email = string

  datatype Status = Pending | Sent | SkippedExistingUser | SkippedUnsubscribed | Bounced | Complained

  datatype Row = Row(email: Email, status: Status)

  /** `trim().toLowerCase()` and the validator's `isEmail`. */
  datatype Rules = Rules(normalize: string -> Email, isEmail: Email -> bool)

  /** `handed` lists every address ever given to the bulk sender by a drip. */
  datatype State = State(
    queue: seq<Row>, users: set<Email>, suppressed: set<Email>, handed: seq<Email>, cap: nat, paused: bool)

  datatype Event =
    | Upload(raws: seq<string>)
    | Drip
    | Feedback(address: Email, complained: bool)
    | Unsubscribe(optOut: Email)
    | SetUsers(users: set<Email>)
    | SetCap(cap: nat)
    | SetPaused(paused: bool)

  // ── Upload ────────────────────────────────────────────────────────────

  /** The distinct valid normalised addresses, in order of first occurrence. */
  function DistinctValid(rules: Rules, raws: seq<string>): seq<Email> {
    if raws == [] then []
    else
      var earlier, email := DistinctValid(rules, raws[..|raws| - 1]), rules.normalize(raws[|raws| - 1]);
      if rules.isEmail(email) && email !in earlier then earlier + [email] else earlier
  }

  function InvalidCount(rules: Rules, raws: seq<string>): nat {
    if raws == [] then 0
    else InvalidCount(rules, raws[..|raws| - 1]) + if rules.isEmail(rules.normalize(raws[|raws| - 1])) then 0 else 1
  }

  /** The candidates that are in none of the dropped ones, in order. */
  function Keep(candidates: seq<Email>, drop: set<Email>): seq<Email> {
    if candidates == [] then []
    else
      var last := candidates[|candidates| - 1];
      Keep(candidates[..|candidates| - 1], drop) + if last in drop then [] else [last]
  }

  function Queued(queue: seq<Row>): set<Email> { set i | 0 <= i < |queue| :: queue[i].email }

  function ToQueue(rules: Rules, s: State, raws: seq<string>): seq<Email> {
    Keep(DistinctValid(rules, raws), s.users + s.suppressed + Queued(s.queue))
  }

  function Rows(emails: seq<Email>): seq<Row> {
    seq(|emails|, i requires 0 <= i < |emails| => Row(emails[i], Pending))
  }

  function UploadStep(rules: Rules, s: State, raws: seq<string>): State {
    s.(queue := s.queue + Rows(ToQueue(rules, s, raws)))
  }

  // ── The daily drip ────────────────────────────────────────────────────

  /** Pending rows among the first `n`. */
  function PendingBefore(queue: seq<Row>, n: nat): nat
    requires n <= |queue|
  {
    if n == 0 then 0 else PendingBefore(queue, n - 1) + if queue[n - 1].status == Pending then 1 else 0
  }

  predicate InBatch(queue: seq<Row>, cap: nat, i: nat)
    requires i < |queue|
  {
    queue[i].status == Pending && PendingBefore(queue, i) < cap
  }

  function Settle(row: Row, users: set<Email>, suppressed: set<Email>): Row {
    row.(status := if row.email in users then SkippedExistingUser
                   else if row.email in suppressed then SkippedUnsubscribed
                   else Sent)
  }

  function DripRow(s: State, i: nat): Row
    requires i < |s.queue|
  {
    if InBatch(s.queue, s.cap, i) then Settle(s.queue[i], s.users, s.suppressed) else s.queue[i]
  }

  /** The addresses of the batch that are neither users nor suppressed, in order. */
  function ToSend(s: State, n: nat): seq<Email>
    requires n <= |s.queue|
  {
    if n == 0 then []
    else
      var row := s.queue[n - 1];
      ToSend(s, n - 1) +
      if InBatch(s.queue, s.cap, n - 1) && row.email !in s.users && row.email !in s.suppressed then [row.email] else []
  }

  function DripStep(s: State): State {
    if s.paused then s
    else s.(queue := seq(|s.queue|, i requires 0 <= i < |s.queue| => DripRow(s, i)),
            handed := s.handed + ToSend(s, |s.queue|))
  }

  // ── Everything else ───────────────────────────────────────────────────

  function FeedbackRow(row: Row, address: Email, complained: bool): Row {
    if row.email == address && row.status == Sent then row.(status := if complained then Complained else Bounced)
        else row
  }

  /** `suppressAndUpdateStatus` */
  function FeedbackStep(s: State, address: Email, complained: bool): State {
    s.(suppressed := s.suppressed + {address},
       queue := seq(|s.queue|, i requires 0 <= i < |s.queue| => FeedbackRow(s.queue[i], address, complained)))
  }

  function Step(rules: Rules, s: State, e: Event): State {
    match e
    case Upload(raws) => UploadStep(rules, s, raws)
    case Drip => DripStep(s)
    case Feedback(address, complained) => FeedbackStep(s, rules.normalize(address), complained)
    case Unsubscribe(optOut) => s.(suppressed := s.suppressed + {optOut})
    case SetUsers(users) => s.(users := users)
    case SetCap(cap) => s.(cap := cap)
    case SetPaused(paused) => s.(paused := paused)
  }

  function Run(rules: Rules, s: State, events: seq<Event>): State
    decreases |events|
  {
    if events == [] then s else Run(rules, Step(rules, s, events[0]), events[1..])
  }
}
