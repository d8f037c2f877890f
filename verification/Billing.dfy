/** Stripe events applied to the two subscription tables, the credit balances and
    the invoices (src/subscriptions/subscriptions.service.ts:357-717,
    src/lead-finder-billing/lead-finder-billing.service.ts:184-420,
    src/subscriptions/subscription-access.util.ts:20-63). */
module Billing {
  import opened Prelude

  // ── Data ──────────────────────────────────────────────────────────────

  datatype StripeStatus = Trialing | Active | PastDue | Unpaid | Paused | Canceled | Incomplete | IncompleteExpired

  datatype Status = ACTIVE | TRIALING | PAST_DUE | CANCELED | EXPIRED

  /** `metadata.kind` is 'lead_finder_tier' or it is not. */
  datatype Kind = Directory | LeadFinder

  datatype Row = Row(user: nat, status: Status, pastDueSince: Option<int>, periodEnd: int, cancelAtPeriodEnd: bool)

  /** A subscription table, keyed by its unique `stripe_subscription_id`. */
  type Table = map<nat, Row>

  /** A Stripe subscription with its metadata. `product` is the plan id or the tier id. */
  datatype StripeSub = StripeSub(
    id: nat, kind: Kind, user: Option<nat>, product: Option<nat>,
    status: StripeStatus, periodEnd: int, cancelAtPeriodEnd: bool)

  datatype StripeInvoice = StripeInvoice(id: nat, subscription: Option<nat>, kind: Kind, user: Option<nat>,
      tier: Option<nat>)

  datatype Event =
    | CheckoutPayment(payer: Option<nat>, credits: Option<int>)
    | CheckoutSubscription(sessionKind: Kind, started: StripeSub)
    | SubscriptionChanged(sub: StripeSub)
    | SubscriptionDeleted(id: nat)
    | InvoicePaid(paid: StripeInvoice)
    | InvoiceFailed(failed: StripeInvoice)
    | Unhandled

  datatype Grant = Grant(user: nat, credits: int)

  /** `cancelled` are the subscriptions this backend has cancelled in Stripe; `tiers`
      maps a tier id to its monthly credits. */
  datatype State = State(
    directory: Table, leadFinder: Table, credits: map<nat, int>, grants: seq<Grant>,
    invoices: map<nat, (nat, bool)>, cancelled: set<nat>, tiers: map<nat, nat>)

  /** A handler's effect: what it has written, and whether it ended by throwing. */
  datatype Effect = Effect(state: State, threw: bool)

  // ── Status and access ─────────────────────────────────────────────────

  function MapStripeStatus(status: StripeStatus): Status {
    match status
    case Trialing => TRIALING
    case Active => ACTIVE
    case PastDue => PAST_DUE
    case Unpaid => PAST_DUE
    case Paused => PAST_DUE
    case Canceled => CANCELED
    case Incomplete => EXPIRED
    case IncompleteExpired => EXPIRED
  }

  predicate LiveStatus(status: Status) { status == ACTIVE || status == TRIALING || status == PAST_DUE }

  predicate HasActiveAccess(row: Row, grace: nat, now: int) {
    if row.status == ACTIVE || row.status == TRIALING then true
    else if row.status == PAST_DUE then
      match row.pastDueSince
      case None => true
      case Some(since) => now < since + grace
    else false
  }

  predicate HasDirectoryAccess(row: Row, grace: nat, now: int) {
    HasActiveAccess(row, grace, now) || row.status == CANCELED
  }

  // ── The store ─────────────────────────────────────────────────────────

  /** The partial unique index: a write that would give a user a second live row. */
  predicate Rejects(table: Table, id: nat, row: Row) {
    LiveStatus(row.status) &&
    exists other :: other in table && other != id && LiveStatus(table[other].status) && table[other].user == row.user
  }

  ghost predicate OneLiveRowPerUser(table: Table) {
    forall a, b :: a in table && b in table && a != b && LiveStatus(table[a].status) && LiveStatus(table[b].status) ==>
      table[a].user != table[b].user
  }

  function GetTable(s: State, kind: Kind): Table {
    match kind case Directory => s.directory case LeadFinder => s.leadFinder
  }

  function PutTable(s: State, kind: Kind, table: Table): State {
    match kind case Directory => s.(directory := table) case LeadFinder => s.(leadFinder := table)
  }

  // ── Stripe → local sync ───────────────────────────────────────────────

  function PastDueSince(status: Status, current: Option<int>, now: int): Option<int> {
    if status == PAST_DUE then (if current.Some? then current else Some(now)) else None
  }

  /** The row a sync writes: an update keeps the row's user, a create takes the
      metadata's. */
  function SyncedRow(table: Table, sub: StripeSub, user: nat, now: int): Row {
    var status := MapStripeStatus(sub.status);
    if sub.id in table then
      Row(table[sub.id].user, status, PastDueSince(status, table[sub.id].pastDueSince, now), sub.periodEnd,
          sub.cancelAtPeriodEnd)
    else Row(user, status, PastDueSince(status, None, now), sub.periodEnd, sub.cancelAtPeriodEnd)
  }

  /** `upsert`, and the compensating cancel when the unique index rejects it. A new
      row for a user who does not exist violates a foreign key and throws. */
  function UpsertSub(s: State, kind: Kind, sub: StripeSub, user: nat, now: int): Effect {
    var table := GetTable(s, kind);
    var row := SyncedRow(table, sub, user, now);
    if sub.id !in table && user !in s.credits then Effect(s, true)
    else if Rejects(table, sub.id, row) then Effect(s.(cancelled := s.cancelled + {sub.id}), false)
    else Effect(PutTable(s, kind, table[sub.id := row]), false)
  }

  /** `syncSubscriptionFromStripe` */
  function SyncDirectory(s: State, sub: StripeSub, now: int): Effect {
    if sub.kind == LeadFinder then Effect(s, false)
    else if sub.user.Some? && sub.product.Some? then UpsertSub(s, Directory, sub, sub.user.value, now)
    else if sub.id !in s.directory then Effect(s, false)
    else
      var row := SyncedRow(s.directory, sub, 0, now);
      if Rejects(s.directory, sub.id, row) then Effect(s, true)
      else Effect(s.(directory := s.directory[sub.id := row]), false)
  }

  /** `syncFromStripe` */
  function SyncLeadFinder(s: State, sub: StripeSub, now: int): Effect {
    if sub.user.Some? && sub.product.Some? then UpsertSub(s, LeadFinder, sub, sub.user.value, now)
    else Effect(s, false)
  }

  function MarkCanceled(table: Table, id: nat): Table {
    if id in table then table[id := table[id].(status := CANCELED)] else table
  }

  /** `markPastDue` */
  function MarkPastDue(s: State, id: nat, now: int): Effect {
    if id !in s.directory then Effect(s, false)
    else
      var row := s.directory[id].(status := PAST_DUE,
          pastDueSince := PastDueSince(PAST_DUE, s.directory[id].pastDueSince, now));
      if Rejects(s.directory, id, row) then Effect(s, true)
      else Effect(s.(directory := s.directory[id := row]), false)
  }

  /** `syncInvoiceFromStripe` */
  function SyncInvoice(s: State, invoice: StripeInvoice, paid: bool): State {
    if invoice.subscription.Some? && invoice.subscription.value in s.directory then
      s.(invoices := s.invoices[invoice.id := (invoice.subscription.value, paid)])
    else s
  }

  function AddCredits(s: State, user: nat, amount: int): Effect {
    if user in s.credits then
      Effect(s.(credits := s.credits[user := s.credits[user] + amount], grants := s.grants + [Grant(user, amount)]),
          false)
    else Effect(s, true)
  }

  /** `handleCreditsCheckoutCompleted` */
  function GrantPurchase(s: State, payer: Option<nat>, credits: Option<int>): Effect {
    if payer.Some? && credits.Some? && credits.value > 0 then AddCredits(s, payer.value, credits.value)
    else Effect(s, false)
  }

  /** `grantMonthlyCredits` */
  function GrantMonthly(s: State, invoice: StripeInvoice): Effect {
    if invoice.kind == LeadFinder && invoice.user.Some? && invoice.tier.Some? && invoice.tier.value in s.tiers then
      AddCredits(s, invoice.user.value, s.tiers[invoice.tier.value])
    else Effect(s, false)
  }

  // ── The two webhook handlers and their dispatch ───────────────────────

  function HandleDirectory(s: State, e: Event, now: int): Effect {
    match e
    case CheckoutPayment(payer, credits) => GrantPurchase(s, payer, credits)
    case CheckoutSubscription(_, sub) => SyncDirectory(s, sub, now)
    case SubscriptionChanged(sub) => SyncDirectory(s, sub, now)
    case SubscriptionDeleted(id) => Effect(s.(directory := MarkCanceled(s.directory, id)), false)
    case InvoicePaid(invoice) => Effect(SyncInvoice(s, invoice, true), false)
    case InvoiceFailed(invoice) =>
      var s1 := SyncInvoice(s, invoice, false);
      if invoice.subscription.Some? then MarkPastDue(s1, invoice.subscription.value, now) else Effect(s1, false)
    case Unhandled => Effect(s, false)
  }

  function HandleLeadFinder(s: State, e: Event, now: int): Effect {
    match e
    case CheckoutSubscription(sessionKind, sub) =>
      if sessionKind == LeadFinder then SyncLeadFinder(s, sub, now) else Effect(s, false)
    case SubscriptionChanged(sub) => if sub.kind == LeadFinder then SyncLeadFinder(s, sub, now) else Effect(s, false)
    case SubscriptionDeleted(id) => Effect(s.(leadFinder := MarkCanceled(s.leadFinder, id)), false)
    case InvoicePaid(invoice) => GrantMonthly(s, invoice)
    case _ => Effect(s, false)
  }

  /** `StripeWebhookProcessor.process`: a throw in the first skips the second. */
  function Process(s: State, e: Event, now: int): Effect {
    var first := HandleDirectory(s, e, now);
    if first.threw then first else HandleLeadFinder(first.state, e, now)
  }

  /** The same with the two services called in the other order. */
  function ProcessSwapped(s: State, e: Event, now: int): Effect {
    var first := HandleLeadFinder(s, e, now);
    if first.threw then first else HandleDirectory(first.state, e, now)
  }

  /** Webhook events and the two local writes to a directory row: checkout after the
      grace period and account deletion cancel the user's live subscription. */
  datatype Change = Webhook(event: Event) | CancelLocally(id: nat)

  function Apply(s: State, change: Change, now: int): Effect {
    match change
    case Webhook(event) => Process(s, event, now)
    case CancelLocally(id) =>
      if id in s.directory && LiveStatus(s.directory[id].status) then
        Effect(s.(directory := s.directory[id := s.directory[id].(status := CANCELED, cancelAtPeriodEnd := false)],
                  cancelled := s.cancelled + {id}), false)
      else Effect(s, false)
  }

  /** Changes with the times they are processed at. */
  function Run(s: State, changes: seq<(Change, int)>): State
    decreases |changes|
  {
    if changes == [] then s else Run(Apply(s, changes[0].0, changes[0].1).state, changes[1..])
  }
}
