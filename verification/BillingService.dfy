/** The two billing services and the processor that calls both, in the source's own
    shape, each method proved equal to its function in Billing. */
module BillingServices {
  import opened Prelude
  import opened Billing

  /** What the database answers to an upsert: the partial unique index is P2002. */
  datatype WriteResult = Written | UniqueViolation | ForeignKeyViolation

  class StripeWebhookProcessor {
    var directory: Table
    var leadFinder: Table
    var credits: map<nat, int>
    var grants: seq<Grant>
    var invoices: map<nat, (nat, bool)>
    var cancelled: set<nat>
    var tiers: map<nat, nat>

    constructor (s: State)
      ensures Snapshot() == s
    {
      directory, leadFinder, credits, grants := s.directory, s.leadFinder, s.credits, s.grants;
      invoices, cancelled, tiers := s.invoices, s.cancelled, s.tiers;
    }

    function Snapshot(): State
      reads this
    {
      State(directory, leadFinder, credits, grants, invoices, cancelled, tiers)
    }

    // ── Store and Stripe calls ──────────────────────────────────────────

    /** `upsert` by subscription id: the update part leaves the row's user alone. */
    method Upsert(kind: Kind, id: nat, user: nat, status: Status, pastDueSince: Option<int>, periodEnd: int,
        cancelAtPeriodEnd: bool)
      returns (result: WriteResult)
      modifies this`directory, this`leadFinder
      ensures var table := GetTable(old(Snapshot()), kind);
        var row := Row(if id in table then table[id].user
            else user, status, pastDueSince, periodEnd, cancelAtPeriodEnd);
        && (result == ForeignKeyViolation <==> id !in table && user !in credits)
        && (result == UniqueViolation <==> (id in table || user in credits) && Rejects(table, id, row))
        && Snapshot() == if result == Written then PutTable(old(Snapshot()), kind, table[id := row])
             else old(Snapshot())
    {
      var table := if kind == Directory then directory else leadFinder;
      if id !in table && user !in credits { return ForeignKeyViolation; }
      var row := Row(if id in table then table[id].user else user, status, pastDueSince, periodEnd, cancelAtPeriodEnd);
      if Rejects(table, id, row) { return UniqueViolation; }
      if kind == Directory { directory := table[id := row]; } else { leadFinder := table[id := row]; }
      return Written;
    }

    method CancelInStripe(id: nat)
      modifies this`cancelled
      ensures cancelled == old(cancelled) + {id}
    {
      cancelled := cancelled + {id};
    }

    // ── SubscriptionsService ────────────────────────────────────────────

    method SyncSubscriptionFromStripe(sub: StripeSub, now: int) returns (threw: bool)
      modifies this`directory, this`leadFinder, this`cancelled
      ensures Effect(Snapshot(), threw) == SyncDirectory(old(Snapshot()), sub, now)
    {
      if sub.kind == LeadFinder { return false; }
      var existing := if sub.id in directory then Some(directory[sub.id]) else None;
      var status := MapStripeStatus(sub.status);
      var current := if existing.Some? then existing.value.pastDueSince else None;
      var since := if status == PAST_DUE then (if current.Some? then current else Some(now)) else None;
      if sub.user.None? || sub.product.None? {
        if existing.None? { return false; }
        var row := Row(existing.value.user, status, since, sub.periodEnd, sub.cancelAtPeriodEnd);
        if Rejects(directory, sub.id, row) { return true; }
        directory := directory[sub.id := row];
        return false;
      }
      var result := Upsert(Directory, sub.id, sub.user.value, status, since, sub.periodEnd, sub.cancelAtPeriodEnd);
      if result == UniqueViolation {
        CancelInStripe(sub.id);
        return false;
      }
      return result == ForeignKeyViolation;
    }

    method MarkPastDue(id: nat, now: int) returns (threw: bool)
      modifies this`directory
      ensures Effect(Snapshot(), threw) == Billing.MarkPastDue(old(Snapshot()), id, now)
    {
      if id !in directory { return false; }
      var existing := directory[id];
      var since := if existing.pastDueSince.Some? then existing.pastDueSince else Some(now);
      var row := existing.(status := PAST_DUE, pastDueSince := since);
      if Rejects(directory, id, row) { return true; }
      directory := directory[id := row];
      return false;
    }

    method SyncInvoiceFromStripe(invoice: StripeInvoice, paid: bool)
      modifies this`invoices
      ensures Snapshot() == SyncInvoice(old(Snapshot()), invoice, paid)
    {
      if invoice.subscription.None? { return; }
      if invoice.subscription.value !in directory { return; }
      invoices := invoices[invoice.id := (invoice.subscription.value, paid)];
    }

    method IncrementCredits(user: nat, amount: int) returns (threw: bool)
      modifies this`credits, this`grants
      ensures Effect(Snapshot(), threw) == AddCredits(old(Snapshot()), user, amount)
    {
      if user !in credits { return true; }
      credits := credits[user := credits[user] + amount];
      grants := grants + [Grant(user, amount)];
      return false;
    }

    method HandleCreditsCheckoutCompleted(payer: Option<nat>, amount: Option<int>) returns (threw: bool)
      modifies this`credits, this`grants
      ensures Effect(Snapshot(), threw) == GrantPurchase(old(Snapshot()), payer, amount)
    {
      if payer.None? || amount.None? || amount.value <= 0 { return false; }
      threw := IncrementCredits(payer.value, amount.value);
    }

    method HandleSubscriptionsEvent(e: Event, now: int) returns (threw: bool)
      modifies this
      ensures Effect(Snapshot(), threw) == HandleDirectory(old(Snapshot()), e, now)
    {
      match e {
        case CheckoutPayment(payer, amount) => threw := HandleCreditsCheckoutCompleted(payer, amount);
        case CheckoutSubscription(_, sub) => threw := SyncSubscriptionFromStripe(sub, now);
        case SubscriptionChanged(sub) => threw := SyncSubscriptionFromStripe(sub, now);
        case SubscriptionDeleted(id) =>
          if id in directory { directory := directory[id := directory[id].(status := CANCELED)]; }
          threw := false;
        case InvoicePaid(invoice) =>
          SyncInvoiceFromStripe(invoice, true);
          threw := false;
        case InvoiceFailed(invoice) =>
          SyncInvoiceFromStripe(invoice, false);
          threw := false;
          if invoice.subscription.Some? { threw := MarkPastDue(invoice.subscription.value, now); }
        case Unhandled => threw := false;
      }
    }

    // ── LeadFinderBillingService ────────────────────────────────────────

    method SyncFromStripe(sub: StripeSub, now: int) returns (threw: bool)
      modifies this`directory, this`leadFinder, this`cancelled
      ensures Effect(Snapshot(), threw) == SyncLeadFinder(old(Snapshot()), sub, now)
    {
      if sub.user.None? || sub.product.None? { return false; }
      var status := MapStripeStatus(sub.status);
      var current := if sub.id in leadFinder then leadFinder[sub.id].pastDueSince else None;
      var since := if status == PAST_DUE then (if current.Some? then current else Some(now)) else None;
      var result := Upsert(LeadFinder, sub.id, sub.user.value, status, since, sub.periodEnd, sub.cancelAtPeriodEnd);
      if result == UniqueViolation {
        CancelInStripe(sub.id);
        return false;
      }
      return result == ForeignKeyViolation;
    }

    method GrantMonthlyCredits(invoice: StripeInvoice) returns (threw: bool)
      modifies this`credits, this`grants
      ensures Effect(Snapshot(), threw) == GrantMonthly(old(Snapshot()), invoice)
    {
      if invoice.kind != LeadFinder { return false; }
      if invoice.user.None? || invoice.tier.None? { return false; }
      if invoice.tier.value !in tiers { return false; }
      threw := IncrementCredits(invoice.user.value, tiers[invoice.tier.value]);
    }

    method HandleLeadFinderEvent(e: Event, now: int) returns (threw: bool)
      modifies this
      ensures Effect(Snapshot(), threw) == HandleLeadFinder(old(Snapshot()), e, now)
    {
      threw := false;
      match e {
        case CheckoutSubscription(sessionKind, sub) =>
          if sessionKind == LeadFinder { threw := SyncFromStripe(sub, now); }
        case SubscriptionChanged(sub) =>
          if sub.kind == LeadFinder { threw := SyncFromStripe(sub, now); }
        case SubscriptionDeleted(id) =>
          if id in leadFinder { leadFinder := leadFinder[id := leadFinder[id].(status := CANCELED)]; }
        case InvoicePaid(invoice) => threw := GrantMonthlyCredits(invoice);
        case _ =>
      }
    }

    // ── StripeWebhookProcessor ──────────────────────────────────────────

    method ProcessEvent(e: Event, now: int) returns (threw: bool)
      modifies this
      ensures Effect(Snapshot(), threw) == Process(old(Snapshot()), e, now)
    {
      threw := HandleSubscriptionsEvent(e, now);
      if !threw {
        threw := HandleLeadFinderEvent(e, now);
      }
    }

    // ── Checkout ────────────────────────────────────────────────────────

    /** The local part of `createCheckoutSession`: refused while the user's live
        subscription grants access; one whose grace period is over is cancelled, so
        that no live row is left when the new checkout starts. */
    method CreateCheckoutSession(user: nat, grace: nat, now: int) returns (refused: bool, replaced: Option<nat>)
      requires OneLiveRowPerUser(directory)
      modifies this`directory, this`cancelled
      ensures refused <==> exists id :: id in old(directory) && old(directory)[id].user == user
                             && LiveStatus(old(directory)[id].status) && HasActiveAccess(old(directory)[id], grace, now)
      ensures refused ==> Snapshot() == old(Snapshot())
      ensures !refused ==> forall id :: id in directory && directory[id].user == user ==>
          !LiveStatus(directory[id].status)
      ensures replaced.Some? ==>
        && !refused && replaced.value in old(directory)
        && old(directory)[replaced.value].user == user && LiveStatus(old(directory)[replaced.value].status)
        && !HasActiveAccess(old(directory)[replaced.value], grace, now)
      ensures cancelled == old(cancelled) + if replaced.Some? then {replaced.value} else {}
      ensures !refused ==> Snapshot() == match replaced
                case Some(id) => Apply(old(Snapshot()), CancelLocally(id), now).state
                case None => old(Snapshot())
    {
      replaced := None;
      if exists id :: id in directory && directory[id].user == user && LiveStatus(directory[id].status) {
        var existing :| existing in directory && directory[existing].user == user
            && LiveStatus(directory[existing].status);
        if HasActiveAccess(directory[existing], grace, now) { return true, None; }
        CancelInStripe(existing);
        directory := directory[existing := directory[existing].(status := CANCELED, cancelAtPeriodEnd := false)];
        replaced := Some(existing);
      }
      refused := false;
    }
  }
}
