/** Rows, balances and invoices against the events that were delivered: what a row says
    is what the last accepted notice about it said, a balance is what was there plus what
    was paid for (src/subscriptions/subscriptions.service.ts:357-671,
    src/lead-finder-billing/lead-finder-billing.service.ts:184-400). */
module BillingRecords {
  import opened Prelude
  import opened Billing
  import opened BillingHistory
  import opened BillingDispatch

  // ── Subscription rows ─────────────────────────────────────────────────

  /** What one change says of a subscription row. */
  datatype Notice = Synced(sub: StripeSub) | PaymentFailed | Deleted | CancelledHere

  ghost function SyncNotice(s: State, kind: Kind, sub: StripeSub, id: nat): seq<Notice> {
    if sub.id == id && Accepted(s, kind, sub) then [Synced(sub)] else []
  }

  /** The notice of row `id` that one change brings. A sync of the Directory table may do
      without our metadata if it knows the row; one of the tier table may not, and comes
      only after the Directory service has not thrown. */
  ghost function NoticesOf(s: State, change: Change, now: int, kind: Kind, id: nat): seq<Notice> {
    match change
    case CancelLocally(cancelled) =>
      if kind == Directory && cancelled == id && id in s.directory && LiveStatus(s.directory[id].status)
      then [CancelledHere] else []
    case Webhook(SubscriptionDeleted(deleted)) =>
      if deleted == id && id in GetTable(s, kind) then [Deleted] else []
    case Webhook(InvoiceFailed(invoice)) =>
      if kind == Directory && invoice.subscription == Some(id) && id in s.directory
         && !OtherLive(s.directory, id, s.directory[id].user) then [PaymentFailed] else []
    case Webhook(SubscriptionChanged(sub)) =>
      if sub.kind == kind && (kind == LeadFinder ==> HasMetadata(sub)) then SyncNotice(s, kind, sub, id) else []
    case Webhook(CheckoutSubscription(sessionKind, sub)) =>
      if kind == Directory then (if sub.kind == Directory then SyncNotice(s, kind, sub, id) else [])
      else if sessionKind == LeadFinder && HasMetadata(sub) && !DirectorySyncThrows(s, sub, now)
      then SyncNotice(s, kind, sub, id) else []
    case _ => []
  }

  ghost function Notices(s: State, changes: seq<(Change, int)>, kind: Kind, id: nat): seq<Notice>
    decreases |changes|
  {
    if changes == [] then []
    else NoticesOf(s, changes[0].0, changes[0].1, kind, id)
         + Notices(Apply(s, changes[0].0, changes[0].1).state, changes[1..], kind, id)
  }

  predicate StatusSays(notice: Notice, status: Status) {
    match notice
    case Synced(sub) => SaysSame(sub.status, status)
    case PaymentFailed => status == PAST_DUE
    case Deleted => status == CANCELED
    case CancelledHere => status == CANCELED
  }

  /** Notice `k` is the last sync of the list. */
  predicate LastSync(notices: seq<Notice>, k: nat) {
    && k < |notices| && notices[k].Synced?
    && forall j :: k < j < |notices| ==> !notices[j].Synced?
  }

  /** A row's columns by the notices about it: the first one's user, the last one's status,
      and the period end and pending cancellation of the last sync, unless this backend has
      cancelled it since. */
  ghost predicate Shows(row: Row, notices: seq<Notice>) {
    && notices != []
    && notices[0].Synced? && notices[0].sub.user == Some(row.user)
    && StatusSays(notices[|notices| - 1], row.status)
    && exists k: nat :: LastSync(notices, k)
         && row.periodEnd == notices[k].sub.periodEnd
         && (row.cancelAtPeriodEnd <==>
               notices[k].sub.cancelAtPeriodEnd && forall j :: k < j < |notices| ==> notices[j] != CancelledHere)
  }

  /** What one notice makes of a row, and that without a notice nothing happens to it. */
  ghost predicate Noted(before: Table, after: Table, seen: seq<Notice>, id: nat) {
    if seen == [] then (id in before <==> id in after) && (id in before ==> after[id] == before[id])
    else
      && |seen| == 1 && id in after && StatusSays(seen[0], after[id].status)
      && (seen[0].Synced? ==>
            && (if id in before then after[id].user == before[id].user else seen[0].sub.user == Some(after[id].user))
            && after[id].periodEnd == seen[0].sub.periodEnd
            && after[id].cancelAtPeriodEnd == seen[0].sub.cancelAtPeriodEnd)
      && (!seen[0].Synced? ==>
            && id in before && after[id].user == before[id].user && after[id].periodEnd == before[id].periodEnd
            && after[id].cancelAtPeriodEnd == (before[id].cancelAtPeriodEnd && seen[0] != CancelledHere))
  }

  lemma UpsertIsNoted(s: State, kind: Kind, sub: StripeSub, now: int, id: nat)
    requires HasMetadata(sub)
    ensures Noted(GetTable(s, kind), GetTable(UpsertSub(s, kind, sub, sub.user.value, now).state, kind),
                  SyncNotice(s, kind, sub, id), id)
  {
    RejectsIff(s, kind, sub, sub.user.value, now);
  }

  lemma DirectorySyncIsNoted(s: State, sub: StripeSub, now: int, id: nat)
    ensures Noted(s.directory, SyncDirectory(s, sub, now).state.directory,
                  if sub.kind == Directory then SyncNotice(s, Directory, sub, id) else [], id)
  {
    if sub.kind == Directory {
      if HasMetadata(sub) { UpsertIsNoted(s, Directory, sub, now, id); }
      else { RejectsIff(s, Directory, sub, 0, now); }
    }
  }

  lemma DirectoryIsNoted(s: State, e: Event, now: int, id: nat)
    ensures Noted(s.directory, HandleDirectory(s, e, now).state.directory,
                  NoticesOf(s, Webhook(e), now, Directory, id), id)
  {
    match e
    case CheckoutSubscription(_, sub) => DirectorySyncIsNoted(s, sub, now, id);
    case SubscriptionChanged(sub) => DirectorySyncIsNoted(s, sub, now, id);
    case _ =>
  }

  /** Nothing is said of a tier row when the Directory service throws. */
  lemma NoNoticeAfterAThrow(s: State, e: Event, now: int, id: nat)
    requires DirectoryThrows(s, e, now)
    ensures NoticesOf(s, Webhook(e), now, LeadFinder, id) == []
  {
  }

  /** The Directory service leaves the tier table and the users as they are. */
  lemma DirectoryLeavesTiers(s: State, e: Event, now: int)
    ensures var first := HandleDirectory(s, e, now).state;
      first.leadFinder == s.leadFinder && first.credits.Keys == s.credits.Keys
  {
    match e
    case CheckoutSubscription(_, sub) => SyncMovesNoMoney(s, sub, now);
    case SubscriptionChanged(sub) => SyncMovesNoMoney(s, sub, now);
    case _ =>
  }

  lemma LeadFinderIsNoted(s: State, e: Event, now: int, id: nat)
    ensures Noted(s.leadFinder, Process(s, e, now).state.leadFinder,
                  NoticesOf(s, Webhook(e), now, LeadFinder, id), id)
  {
    var first := HandleDirectory(s, e, now);
    DirectoryLeavesTiers(s, e, now);
    ThrowGuards(s, e, now);
    if first.threw { NoNoticeAfterAThrow(s, e, now, id); } else { SecondIsNoted(s, first.state, e, now, id); }
  }

  /** The Lead Finder service leaves the Directory table as it is. */
  lemma LeadFinderLeavesDirectory(s: State, e: Event, now: int)
    ensures Process(s, e, now).state.directory == HandleDirectory(s, e, now).state.directory
  {
    LeadFinderMoves(HandleDirectory(s, e, now).state, e, now, 0);
  }

  /** What the Lead Finder service does after a Directory service that has not thrown. */
  lemma SecondIsNoted(s: State, first: State, e: Event, now: int, id: nat)
    requires first.leadFinder == s.leadFinder && first.credits.Keys == s.credits.Keys
    requires e.CheckoutSubscription? ==> !DirectorySyncThrows(s, e.started, now)
    ensures Noted(s.leadFinder, HandleLeadFinder(first, e, now).state.leadFinder,
                  NoticesOf(s, Webhook(e), now, LeadFinder, id), id)
  {
    match e
    case CheckoutSubscription(_, sub) =>
      if HasMetadata(sub) { UpsertIsNoted(first, LeadFinder, sub, now, id); }
    case SubscriptionChanged(sub) =>
      if HasMetadata(sub) { UpsertIsNoted(first, LeadFinder, sub, now, id); }
    case _ =>
  }

  lemma ApplyIsNoted(s: State, change: Change, now: int, kind: Kind, id: nat)
    ensures Noted(GetTable(s, kind), GetTable(Apply(s, change, now).state, kind),
                  NoticesOf(s, change, now, kind, id), id)
  {
    match change
    case Webhook(e) =>
      DirectoryIsNoted(s, e, now, id);
      LeadFinderLeavesDirectory(s, e, now);
      LeadFinderIsNoted(s, e, now, id);
    case CancelLocally(_) =>
  }

  /** The row shows what the notices so far say; no notice, no row. */
  ghost predicate Follows(table: Table, id: nat, notices: seq<Notice>) {
    if id in table then Shows(table[id], notices) else notices == []
  }

  lemma NoteKeepsFollowing(before: Table, after: Table, seen: seq<Notice>, id: nat, earlier: seq<Notice>)
    requires Follows(before, id, earlier) && Noted(before, after, seen, id)
    ensures Follows(after, id, earlier + seen)
  {
    var all, n := earlier + seen, |earlier|;
    if seen == [] {
      assert all == earlier;
    } else if seen[0].Synced? {
      assert all[n] == seen[0] && LastSync(all, n);
    } else {
      var k: nat :| LastSync(earlier, k)
        && before[id].periodEnd == earlier[k].sub.periodEnd
        && (before[id].cancelAtPeriodEnd <==>
              earlier[k].sub.cancelAtPeriodEnd && forall j :: k < j < n ==> earlier[j] != CancelledHere);
      assert all[n] == seen[0] && LastSync(all, k);
      assert forall j :: k < j < n ==> all[j] == earlier[j];
    }
  }

  lemma NoticesUnroll(s: State, changes: seq<(Change, int)>, kind: Kind, id: nat, earlier: seq<Notice>)
    requires changes != []
    ensures var (change, now) := changes[0];
      earlier + Notices(s, changes, kind, id)
      == earlier + NoticesOf(s, change, now, kind, id)
         + Notices(Apply(s, change, now).state, changes[1..], kind, id)
  {
  }

  /** Over any sequence of changes, in either table: a row is there exactly when a notice
      about it was accepted, and it says what those notices said. Everything else that
      happens leaves it as it is. */
  lemma {:induction false} RowFollowsNotices(
    s: State, changes: seq<(Change, int)>, kind: Kind, id: nat, earlier: seq<Notice>)
    requires Follows(GetTable(s, kind), id, earlier)
    ensures Follows(GetTable(Run(s, changes), kind), id, earlier + Notices(s, changes, kind, id))
    decreases |changes|
  {
    if changes == [] {
      assert earlier + [] == earlier;
    } else {
      var (change, now) := changes[0];
      var s' := Apply(s, change, now).state;
      var seen := NoticesOf(s, change, now, kind, id);
      ApplyIsNoted(s, change, now, kind, id);
      NoteKeepsFollowing(GetTable(s, kind), GetTable(s', kind), seen, id, earlier);
      RowFollowsNotices(s', changes[1..], kind, id, earlier + seen);
      NoticesUnroll(s, changes, kind, id, earlier);
    }
  }

  // ── Cancellations ─────────────────────────────────────────────────────

  /** A live subscription of a user who has another live row of the product. */
  ghost predicate Redundant(s: State, kind: Kind, sub: StripeSub, id: nat) {
    && sub.id == id && HasMetadata(sub) && !NobodyToBill(s, kind, sub)
    && StripeLive(sub.status) && OtherLive(GetTable(s, kind), id, Owner(s, kind, id, sub.user.value))
  }

  /** This change makes the backend cancel subscription `id` in Stripe. */
  ghost predicate Cancels(s: State, change: Change, now: int, id: nat) {
    match change
    case CancelLocally(live) => live == id && id in s.directory && LiveStatus(s.directory[id].status)
    case Webhook(SubscriptionChanged(sub)) => Redundant(s, sub.kind, sub, id)
    case Webhook(CheckoutSubscription(sessionKind, sub)) =>
      || (sub.kind == Directory && Redundant(s, Directory, sub, id))
      || (sessionKind == LeadFinder && !DirectorySyncThrows(s, sub, now) && Redundant(s, LeadFinder, sub, id))
    case _ => false
  }

  lemma UpsertCancels(s: State, kind: Kind, sub: StripeSub, now: int)
    requires HasMetadata(sub)
    ensures var s' := UpsertSub(s, kind, sub, sub.user.value, now).state;
      s'.cancelled == if Redundant(s, kind, sub, sub.id) then s.cancelled + {sub.id} else s.cancelled
  {
    RejectsIff(s, kind, sub, sub.user.value, now);
  }

  lemma SyncCancels(s: State, sub: StripeSub, now: int)
    ensures var d, l := SyncDirectory(s, sub, now).state, SyncLeadFinder(s, sub, now).state;
      && d.cancelled == (if sub.kind == Directory && Redundant(s, Directory, sub, sub.id) then s.cancelled + {sub.id}
                         else s.cancelled)
      && l.cancelled == (if Redundant(s, LeadFinder, sub, sub.id) then s.cancelled + {sub.id} else s.cancelled)
  {
    if HasMetadata(sub) {
      UpsertCancels(s, Directory, sub, now);
      UpsertCancels(s, LeadFinder, sub, now);
    }
  }

  lemma CheckoutCancels(s: State, sessionKind: Kind, sub: StripeSub, now: int, id: nat)
    ensures var e := CheckoutSubscription(sessionKind, sub);
      id in Process(s, e, now).state.cancelled <==> id in s.cancelled || Cancels(s, Webhook(e), now, id)
  {
    var e, first := CheckoutSubscription(sessionKind, sub), SyncDirectory(s, sub, now);
    ThrowGuards(s, e, now);
    SyncMoves(s, sub, now, id);
    SyncCancels(s, sub, now);
    SyncMovesNoMoney(s, sub, now);
    if !first.threw && sessionKind == LeadFinder {
      SyncCancels(first.state, sub, now);
      assert Redundant(first.state, LeadFinder, sub, sub.id) <==> Redundant(s, LeadFinder, sub, sub.id);
    }
  }

  /** The backend cancels a subscription in Stripe exactly for a redundant live one, or for
      the one a new checkout or a deleted account replaces. */
  lemma CancelledIff(s: State, change: Change, now: int, id: nat)
    ensures id in Apply(s, change, now).state.cancelled <==> id in s.cancelled || Cancels(s, change, now, id)
    ensures change.CancelLocally? ==> !Apply(s, change, now).threw
  {
    match change
    case Webhook(CheckoutSubscription(sessionKind, sub)) => CheckoutCancels(s, sessionKind, sub, now, id);
    case Webhook(SubscriptionChanged(sub)) => SyncCancels(s, sub, now);
    case _ =>
  }

  // ── Credits ───────────────────────────────────────────────────────────

  /** The credits an event pays for: those of a pack, or a month of the invoiced tier, for
      a user who exists. */
  function GrantsDue(users: set<nat>, tiers: map<nat, nat>, change: Change): seq<Grant> {
    match change
    case Webhook(CheckoutPayment(Some(user), Some(pack))) =>
      if pack > 0 && user in users then [Grant(user, pack)] else []
    case Webhook(InvoicePaid(StripeInvoice(_, _, LeadFinder, Some(user), Some(tier)))) =>
      if tier in tiers && user in users then [Grant(user, tiers[tier])] else []
    case _ => []
  }

  function AllGrantsDue(users: set<nat>, tiers: map<nat, nat>, changes: seq<(Change, int)>): seq<Grant> {
    if changes == [] then [] else GrantsDue(users, tiers, changes[0].0) + AllGrantsDue(users, tiers, changes[1..])
  }

  function SumFor(grants: seq<Grant>, user: nat): int {
    if grants == [] then 0 else (if grants[0].user == user then grants[0].credits else 0) + SumFor(grants[1..], user)
  }

  lemma {:induction false} SumAppends(a: seq<Grant>, b: seq<Grant>, user: nat)
    ensures SumFor(a + b, user) == SumFor(a, user) + SumFor(b, user)
  {
    if a == [] {
      assert a + b == b;
    } else {
      assert (a + b)[1..] == a[1..] + b;
      SumAppends(a[1..], b, user);
    }
  }

  predicate SameMoney(s: State, s': State) {
    s'.credits == s.credits && s'.grants == s.grants && s'.tiers == s.tiers && s'.invoices == s.invoices
  }

  lemma UpsertMovesNoMoney(s: State, kind: Kind, sub: StripeSub, user: nat, now: int)
    ensures SameMoney(s, UpsertSub(s, kind, sub, user, now).state)
  {
  }

  lemma SyncMovesNoMoney(s: State, sub: StripeSub, now: int)
    ensures SameMoney(s, SyncDirectory(s, sub, now).state)
    ensures SameMoney(s, SyncLeadFinder(s, sub, now).state)
  {
    if HasMetadata(sub) {
      UpsertMovesNoMoney(s, Directory, sub, sub.user.value, now);
      UpsertMovesNoMoney(s, LeadFinder, sub, sub.user.value, now);
    }
  }

  lemma EventMoney(s: State, e: Event, now: int)
    ensures e.CheckoutSubscription? || e.SubscriptionChanged? || e.SubscriptionDeleted? || e.Unhandled? ==>
      SameMoney(s, Process(s, e, now).state)
    ensures e.CheckoutPayment? ==> Process(s, e, now).state == GrantPurchase(s, e.payer, e.credits).state
    ensures e.InvoicePaid? ==> Process(s, e, now) == GrantMonthly(SyncInvoice(s, e.paid, true), e.paid)
    ensures e.InvoiceFailed? ==> SameMoney(SyncInvoice(s, e.failed, false), Process(s, e, now).state)
  {
    match e
    case CheckoutSubscription(_, sub) =>
      SyncMovesNoMoney(s, sub, now);
      SyncMovesNoMoney(HandleDirectory(s, e, now).state, sub, now);
    case SubscriptionChanged(sub) =>
      SyncMovesNoMoney(s, sub, now);
      SyncMovesNoMoney(HandleDirectory(s, e, now).state, sub, now);
    case _ =>
  }

  lemma ApplyGrants(s: State, change: Change, now: int)
    ensures var s', due := Apply(s, change, now).state, GrantsDue(s.credits.Keys, s.tiers, change);
      && s'.tiers == s.tiers && s'.credits.Keys == s.credits.Keys
      && s'.grants == s.grants + due
      && forall user :: user in s.credits ==> s'.credits[user] == s.credits[user] + SumFor(due, user)
  {
    if change.Webhook? { EventMoney(s, change.event, now); }
    var due := GrantsDue(s.credits.Keys, s.tiers, change);
    assert due == [] || due == [due[0]];
    assert SumFor([], 0) == 0 && s.grants + [] == s.grants;
    forall user ensures due != [] ==> SumFor(due, user) == if due[0].user == user then due[0].credits else 0 {
      if due != [] { assert due[1..] == [] && SumFor(due[1..], user) == 0; }
    }
  }

  /** Over any sequence of changes: the grants recorded are exactly the credits paid for,
      in order, and every balance is what it was plus those granted to its user. */
  lemma {:induction false} BalanceIsStartPlusGrants(s: State, changes: seq<(Change, int)>)
    ensures var t, due := Run(s, changes), AllGrantsDue(s.credits.Keys, s.tiers, changes);
      && t.tiers == s.tiers && t.credits.Keys == s.credits.Keys
      && t.grants == s.grants + due
      && forall user :: user in s.credits ==> t.credits[user] == s.credits[user] + SumFor(due, user)
    decreases |changes|
  {
    if changes == [] {
      assert s.grants + [] == s.grants;
    } else {
      var s' := Apply(s, changes[0].0, changes[0].1).state;
      var due, rest := GrantsDue(s.credits.Keys, s.tiers, changes[0].0),
                       AllGrantsDue(s.credits.Keys, s.tiers, changes[1..]);
      ApplyGrants(s, changes[0].0, changes[0].1);
      BalanceIsStartPlusGrants(s', changes[1..]);
      assert s.grants + due + rest == s.grants + (due + rest);
      forall user ensures SumFor(due + rest, user) == SumFor(due, user) + SumFor(rest, user) {
        SumAppends(due, rest, user);
      }
    }
  }

  // ── Invoices ──────────────────────────────────────────────────────────

  /** What a change says of an invoice, if it belongs to a Directory row: that row, and
      whether it is paid. */
  function InvoiceNotice(s: State, change: Change, id: nat): Option<(nat, bool)> {
    match change
    case Webhook(InvoicePaid(invoice)) =>
      if invoice.id == id && invoice.subscription.Some? && invoice.subscription.value in s.directory
      then Some((invoice.subscription.value, true)) else None
    case Webhook(InvoiceFailed(invoice)) =>
      if invoice.id == id && invoice.subscription.Some? && invoice.subscription.value in s.directory
      then Some((invoice.subscription.value, false)) else None
    case _ => None
  }

  /** The last such notice of a run, or what was there before it. */
  function LastInvoiceNotice(s: State, changes: seq<(Change, int)>, id: nat): Option<(nat, bool)>
    decreases |changes|
  {
    if changes == [] then (if id in s.invoices then Some(s.invoices[id]) else None)
    else
      var (last, now) := changes[|changes| - 1];
      var before := changes[..|changes| - 1];
      var said := InvoiceNotice(Run(s, before), last, id);
      if said.Some? then said else LastInvoiceNotice(s, before, id)
  }

  lemma {:induction false} RunAppends(s: State, changes: seq<(Change, int)>, more: seq<(Change, int)>)
    ensures Run(s, changes + more) == Run(Run(s, changes), more)
    decreases |changes|
  {
    if changes == [] {
      assert changes + more == more;
    } else {
      assert (changes + more)[1..] == changes[1..] + more;
      RunAppends(Apply(s, changes[0].0, changes[0].1).state, changes[1..], more);
    }
  }

  lemma ApplyInvoices(s: State, change: Change, now: int, id: nat)
    ensures var s', said := Apply(s, change, now).state, InvoiceNotice(s, change, id);
      if said.Some? then id in s'.invoices && s'.invoices[id] == said.value
      else (id in s'.invoices <==> id in s.invoices) && (id in s.invoices ==> s'.invoices[id] == s.invoices[id])
  {
    if change.Webhook? { EventMoney(s, change.event, now); }
  }

  /** An invoice is recorded as the last event about it said, even when the event went on
      to throw. */
  lemma {:induction false} InvoiceFollowsEvents(s: State, changes: seq<(Change, int)>, id: nat)
    ensures var t, said := Run(s, changes), LastInvoiceNotice(s, changes, id);
      && (id in t.invoices <==> said.Some?)
      && (said.Some? ==> t.invoices[id] == said.value)
    decreases |changes|
  {
    if changes != [] {
      var before, last := changes[..|changes| - 1], changes[|changes| - 1];
      InvoiceFollowsEvents(s, before, id);
      ApplyInvoices(Run(s, before), last.0, last.1, id);
      RunAppends(s, before, [last]);
      assert before + [last] == changes && [last][1..] == [];
    }
  }
}
