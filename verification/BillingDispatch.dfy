/** Every Stripe event is handed to both billing services, the second only if the first
    does not throw (src/subscriptions/stripe-webhook.processor.ts:30-37). When the order
    matters, and when the two services keep to their own subscriptions. */
module BillingDispatch {
  import opened Prelude
  import opened Billing

  // ── When the order matters ────────────────────────────────────────────

  predicate HasMetadata(sub: StripeSub) { sub.user.Some? && sub.product.Some? }

  /** An upsert with no row to update and no user to create one for. */
  predicate NobodyToBill(s: State, kind: Kind, sub: StripeSub) {
    HasMetadata(sub) && sub.id !in GetTable(s, kind) && sub.user.value !in s.credits
  }

  predicate DirectorySyncThrows(s: State, sub: StripeSub, now: int) {
    && sub.kind == Directory
    && (if HasMetadata(sub) then NobodyToBill(s, Directory, sub)
        else sub.id in s.directory && Rejects(s.directory, sub.id, SyncedRow(s.directory, sub, 0, now)))
  }

  /** The guards behind which the Directory service throws: a missing user, or a write
      without metadata that the unique index rejects. */
  predicate DirectoryThrows(s: State, e: Event, now: int) {
    match e
    case CheckoutPayment(payer, credits) => payer.Some? && credits.Some? && credits.value > 0
        && payer.value !in s.credits
    case CheckoutSubscription(_, sub) => DirectorySyncThrows(s, sub, now)
    case SubscriptionChanged(sub) => DirectorySyncThrows(s, sub, now)
    case InvoiceFailed(invoice) =>
      && invoice.subscription.Some? && invoice.subscription.value in s.directory
      && Rejects(s.directory, invoice.subscription.value, s.directory[invoice.subscription.value].(status := PAST_DUE))
    case _ => false
  }

  /** The guards behind which the Lead Finder service throws: a missing user. */
  predicate LeadFinderThrows(s: State, e: Event) {
    match e
    case CheckoutSubscription(sessionKind, sub) => sessionKind == LeadFinder && NobodyToBill(s, LeadFinder, sub)
    case SubscriptionChanged(sub) => sub.kind == LeadFinder && NobodyToBill(s, LeadFinder, sub)
    case InvoicePaid(invoice) =>
      && invoice.kind == LeadFinder && invoice.user.Some? && invoice.tier.Some?
      && invoice.tier.value in s.tiers && invoice.user.value !in s.credits
    case _ => false
  }

  lemma ThrowGuards(s: State, e: Event, now: int)
    ensures HandleDirectory(s, e, now).threw <==> DirectoryThrows(s, e, now)
    ensures HandleLeadFinder(s, e, now).threw <==> LeadFinderThrows(s, e)
  {
    match e
    case InvoiceFailed(invoice) =>
      if invoice.subscription.Some? && invoice.subscription.value in s.directory {
        var id := invoice.subscription.value;
        SameRejection(s.directory, id, s.directory[id].(status := PAST_DUE),
                      s.directory[id].(status := PAST_DUE,
                          pastDueSince := PastDueSince(PAST_DUE, s.directory[id].pastDueSince, now)));
      }
    case _ =>
  }

  lemma SameRejection(table: Table, id: nat, a: Row, b: Row)
    requires a.user == b.user && a.status == b.status
    ensures Rejects(table, id, a) <==> Rejects(table, id, b)
  {
  }

  /** A sync with a row to update, or a user to create one for, that changes something. */
  predicate SyncWrites(s: State, kind: Kind, sub: StripeSub, user: nat, now: int) {
    var table := GetTable(s, kind);
    var row := SyncedRow(table, sub, user, now);
    if Rejects(table, sub.id, row) then sub.id !in s.cancelled else !(sub.id in table && table[sub.id] == row)
  }

  /** One service throws and the other would write something: a checkout whose session is
      of the other kind than its subscription, for a user who does not exist, with a row
      in one table only; or a paid tier invoice of a missing user for a subscription in
      the Directory table. */
  predicate OrderMatters(s: State, e: Event, now: int) {
    match e
    case CheckoutSubscription(sessionKind, sub) =>
      && sessionKind == LeadFinder && sub.kind == Directory
      && HasMetadata(sub) && sub.user.value !in s.credits
      && (|| (sub.id in s.directory && sub.id !in s.leadFinder && SyncWrites(s, Directory, sub, sub.user.value, now))
          || (sub.id !in s.directory && sub.id in s.leadFinder && SyncWrites(s, LeadFinder, sub, sub.user.value, now)))
    case InvoicePaid(invoice) =>
      && LeadFinderThrows(s, e)
      && invoice.subscription.Some? && invoice.subscription.value in s.directory
      && !(invoice.id in s.invoices && s.invoices[invoice.id] == (invoice.subscription.value, true))
    case _ => false
  }

  /** What an upsert reads and writes. */
  lemma UpsertFacts(s: State, kind: Kind, sub: StripeSub, user: nat, now: int)
    ensures var effect, table := UpsertSub(s, kind, sub, user, now), GetTable(s, kind);
      && (effect.threw <==> sub.id !in table && user !in s.credits)
      && (effect.threw ==> effect.state == s)
      && effect.state == PutTable(s, kind, GetTable(effect.state, kind)).(cancelled := effect.state.cancelled)
      && (!effect.threw ==> (effect.state == s <==> !SyncWrites(s, kind, sub, user, now)))
  {
    var table := GetTable(s, kind);
    var row := SyncedRow(table, sub, user, now);
    if sub.id in table || user in s.credits {
      if Rejects(table, sub.id, row) {
        assert s.cancelled + {sub.id} == s.cancelled <==> sub.id in s.cancelled;
      } else {
        assert table[sub.id := row] == table <==> sub.id in table && table[sub.id] == row;
      }
    }
  }

  /** An upsert decides by its own table and the users alone. */
  lemma UpsertDecides(s: State, s': State, kind: Kind, sub: StripeSub, user: nat, now: int)
    requires GetTable(s', kind) == GetTable(s, kind) && s'.credits == s.credits
    ensures var effect, table := UpsertSub(s', kind, sub, user, now), GetTable(s, kind);
      && effect.threw == UpsertSub(s, kind, sub, user, now).threw
      && effect.state == (
           if effect.threw then s'
           else if Rejects(table, sub.id, SyncedRow(table, sub, user, now))
               then s'.(cancelled := s'.cancelled + {sub.id})
           else PutTable(s', kind, table[sub.id := SyncedRow(table, sub, user, now)]))
  {
  }

  lemma UpsertsAreIndependent(s: State, sub: StripeSub, user: nat, now: int)
    ensures var d, l := UpsertSub(s, Directory, sub, user, now), UpsertSub(s, LeadFinder, sub, user, now);
      && UpsertSub(l.state, Directory, sub, user, now).threw == d.threw
      && UpsertSub(d.state, LeadFinder, sub, user, now).threw == l.threw
      && (!d.threw && !l.threw ==>
            UpsertSub(l.state, Directory, sub, user, now).state == UpsertSub(d.state, LeadFinder, sub, user, now).state)
      && (d.threw ==> UpsertSub(l.state, Directory, sub, user, now).state == l.state)
      && (l.threw ==> UpsertSub(d.state, LeadFinder, sub, user, now).state == d.state)
  {
    var d, l := UpsertSub(s, Directory, sub, user, now), UpsertSub(s, LeadFinder, sub, user, now);
    UpsertFacts(s, Directory, sub, user, now);
    UpsertFacts(s, LeadFinder, sub, user, now);
    UpsertDecides(s, s, Directory, sub, user, now);
    UpsertDecides(s, s, LeadFinder, sub, user, now);
    UpsertDecides(s, l.state, Directory, sub, user, now);
    UpsertDecides(s, d.state, LeadFinder, sub, user, now);
  }

  lemma CheckoutOrder(s: State, sub: StripeSub, now: int)
    requires sub.kind == Directory
    ensures var e := CheckoutSubscription(LeadFinder, sub);
      Process(s, e, now) == ProcessSwapped(s, e, now) <==> !OrderMatters(s, e, now)
  {
    if HasMetadata(sub) {
      UpsertFacts(s, Directory, sub, sub.user.value, now);
      UpsertFacts(s, LeadFinder, sub, sub.user.value, now);
      UpsertsAreIndependent(s, sub, sub.user.value, now);
    }
  }

  lemma InvoiceOrder(s: State, invoice: StripeInvoice, now: int)
    ensures Process(s, InvoicePaid(invoice), now) == ProcessSwapped(s, InvoicePaid(invoice), now)
            <==> !OrderMatters(s, InvoicePaid(invoice), now)
  {
    if invoice.subscription.Some? && invoice.subscription.value in s.directory {
      var entry := (invoice.subscription.value, true);
      assert s.invoices[invoice.id := entry] == s.invoices <==>
          invoice.id in s.invoices && s.invoices[invoice.id] == entry;
    }
  }

  /** The exact condition under which the two orders give the same state and the same
      throw, for any state and any event, consistent or not. */
  lemma HandlersCommuteIff(s: State, e: Event, now: int)
    ensures Process(s, e, now) == ProcessSwapped(s, e, now) <==> !OrderMatters(s, e, now)
  {
    match e
    case CheckoutSubscription(sessionKind, sub) =>
      if sessionKind == LeadFinder && sub.kind == Directory { CheckoutOrder(s, sub, now); }
    case InvoicePaid(invoice) => InvoiceOrder(s, invoice, now);
    case _ =>
  }

  /** So order never matters unless one of the services throws. */
  lemma WithoutThrowsOrderIsIrrelevant(s: State, e: Event, now: int)
    requires !DirectoryThrows(s, e, now) && !LeadFinderThrows(s, e)
    ensures Process(s, e, now) == ProcessSwapped(s, e, now)
    ensures !Process(s, e, now).threw
  {
    HandlersCommuteIff(s, e, now);
    ThrowGuards(s, e, now);
    ThrowGuards(HandleDirectory(s, e, now).state, e, now);
    ProcessThrowsIff(s, e, now);
  }

  lemma ProcessThrowsIff(s: State, e: Event, now: int)
    ensures Process(s, e, now).threw <==> DirectoryThrows(s, e, now) || LeadFinderThrows(s, e)
  {
    ThrowGuards(s, e, now);
    ThrowGuards(HandleDirectory(s, e, now).state, e, now);
    if !DirectoryThrows(s, e, now) { DirectoryKeepsGuards(s, e, now); }
  }

  lemma DirectoryLeavesUsers(s: State, e: Event, now: int)
    requires !e.CheckoutPayment?
    ensures var s' := HandleDirectory(s, e, now).state;
      s'.leadFinder == s.leadFinder && s'.credits == s.credits && s'.tiers == s.tiers
  {
    match e
    case CheckoutSubscription(_, sub) => DirectorySyncKeys(s, sub, now);
    case SubscriptionChanged(sub) => DirectorySyncKeys(s, sub, now);
    case _ =>
  }

  lemma DirectoryKeepsGuards(s: State, e: Event, now: int)
    ensures LeadFinderThrows(HandleDirectory(s, e, now).state, e) <==> LeadFinderThrows(s, e)
  {
    if !e.CheckoutPayment? { DirectoryLeavesUsers(s, e, now); }
  }

  /** The foreign keys: every row belongs to a user who exists. */
  ghost predicate RowsHaveUsers(s: State) {
    && (forall id :: id in s.directory ==> s.directory[id].user in s.credits)
    && (forall id :: id in s.leadFinder ==> s.leadFinder[id].user in s.credits)
  }

  lemma UpsertKeepsUsers(s: State, kind: Kind, sub: StripeSub, user: nat, now: int)
    requires RowsHaveUsers(s)
    ensures RowsHaveUsers(UpsertSub(s, kind, sub, user, now).state)
  {
  }

  lemma DirectoryKeepsUsers(s: State, e: Event, now: int)
    requires RowsHaveUsers(s)
    ensures RowsHaveUsers(HandleDirectory(s, e, now).state)
  {
    match e
    case CheckoutSubscription(_, sub) =>
      if HasMetadata(sub) { UpsertKeepsUsers(s, Directory, sub, sub.user.value, now); }
    case SubscriptionChanged(sub) =>
      if HasMetadata(sub) { UpsertKeepsUsers(s, Directory, sub, sub.user.value, now); }
    case _ =>
  }

  lemma LeadFinderKeepsUsers(s: State, e: Event, now: int)
    requires RowsHaveUsers(s)
    ensures RowsHaveUsers(HandleLeadFinder(s, e, now).state)
  {
    match e
    case CheckoutSubscription(_, sub) =>
      if HasMetadata(sub) { UpsertKeepsUsers(s, LeadFinder, sub, sub.user.value, now); }
    case SubscriptionChanged(sub) =>
      if HasMetadata(sub) { UpsertKeepsUsers(s, LeadFinder, sub, sub.user.value, now); }
    case _ =>
  }

  lemma {:induction false} RunKeepsUsers(s: State, changes: seq<(Change, int)>)
    requires RowsHaveUsers(s)
    ensures RowsHaveUsers(Run(s, changes))
    decreases |changes|
  {
    if changes != [] {
      var (change, now) := changes[0];
      if change.Webhook? {
        DirectoryKeepsUsers(s, change.event, now);
        LeadFinderKeepsUsers(HandleDirectory(s, change.event, now).state, change.event, now);
      }
      RunKeepsUsers(Apply(s, change, now).state, changes[1..]);
    }
  }

  /** One user and one tier, and not a single subscription yet. */
  function Fresh(): State { State(map[], map[], map[2 := 0], [], map[], {}, map[3 := 100]) }

  /** A state reached from empty tables by one Stripe event, and an event on which the
      orders differ: a paid invoice for the Directory subscription of an existing user,
      with tier metadata that names a user who does not exist, is recorded in one order
      only. */
  lemma OrdersCanDiffer() returns (changes: seq<(Change, int)>, e: Event)
    ensures RowsHaveUsers(Run(Fresh(), changes))
    ensures OrderMatters(Run(Fresh(), changes), e, 0)
    ensures var s := Run(Fresh(), changes);
      Process(s, e, 0).state.invoices != ProcessSwapped(s, e, 0).state.invoices
  {
    var sub := StripeSub(7, Directory, Some(2), Some(1), Active, 0, false);
    changes := [(Webhook(SubscriptionChanged(sub)), 0)];
    e := InvoicePaid(StripeInvoice(5, Some(7), LeadFinder, Some(1), Some(3)));
    RunKeepsUsers(Fresh(), changes);
    var s := Fresh().(directory := map[7 := Row(2, ACTIVE, None, 0, false)]);
    assert Process(Fresh(), SubscriptionChanged(sub), 0) == Effect(s, false);
    assert changes[1..] == [];
    assert Run(Fresh(), changes) == s;
    assert 5 in Process(s, e, 0).state.invoices && 5 !in ProcessSwapped(s, e, 0).state.invoices;
  }

  // ── When the tables stay disjoint ─────────────────────────────────────

  predicate DisjointTables(s: State) { s.directory.Keys !! s.leadFinder.Keys }

  /** The sync creates a row. */
  predicate Creates(s: State, kind: Kind, sub: StripeSub, now: int) {
    && HasMetadata(sub) && sub.id !in GetTable(s, kind) && sub.user.value in s.credits
    && !Rejects(GetTable(s, kind), sub.id, SyncedRow(GetTable(s, kind), sub, sub.user.value, now))
  }

  /** The subscription an event syncs ends up in both tables. */
  predicate EndsInBoth(s: State, sub: StripeSub, toDirectory: bool, toLeadFinder: bool, now: int) {
    && (sub.id in s.directory || (toDirectory && Creates(s, Directory, sub, now)))
    && (sub.id in s.leadFinder || (toLeadFinder && Creates(s, LeadFinder, sub, now)))
  }

  predicate Overlaps(s: State, e: Event, now: int) {
    match e
    case CheckoutSubscription(sessionKind, sub) =>
      EndsInBoth(s, sub, sub.kind == Directory, sessionKind == LeadFinder && !DirectoryThrows(s, e, now), now)
    case SubscriptionChanged(sub) => EndsInBoth(s, sub, sub.kind == Directory, sub.kind == LeadFinder, now)
    case _ => false
  }

  lemma UpsertKeys(s: State, kind: Kind, sub: StripeSub, user: nat, now: int)
    requires sub.user == Some(user) && sub.product.Some?
    ensures GetTable(UpsertSub(s, kind, sub, user, now).state, kind).Keys
         == GetTable(s, kind).Keys + if Creates(s, kind, sub, now) then {sub.id} else {}
    ensures UpsertSub(s, kind, sub, user, now).state.credits == s.credits
    ensures UpsertSub(s, kind, sub, user, now).state.tiers == s.tiers
    ensures kind == Directory ==> UpsertSub(s, kind, sub, user, now).state.leadFinder == s.leadFinder
    ensures kind == LeadFinder ==> UpsertSub(s, kind, sub, user, now).state.directory == s.directory
  {
  }

  lemma DirectorySyncKeys(s: State, sub: StripeSub, now: int)
    ensures var s' := SyncDirectory(s, sub, now).state;
      && s'.directory.Keys == s.directory.Keys
           + (if sub.kind == Directory && Creates(s, Directory, sub, now) then {sub.id} else {})
      && s'.leadFinder == s.leadFinder && s'.credits == s.credits && s'.tiers == s.tiers
  {
    if HasMetadata(sub) { UpsertKeys(s, Directory, sub, sub.user.value, now); }
  }

  lemma LeadFinderSyncKeys(s: State, sub: StripeSub, now: int)
    ensures var s' := SyncLeadFinder(s, sub, now).state;
      && s'.leadFinder.Keys == s.leadFinder.Keys + (if Creates(s, LeadFinder, sub, now) then {sub.id} else {})
      && s'.directory == s.directory
  {
    if HasMetadata(sub) { UpsertKeys(s, LeadFinder, sub, sub.user.value, now); }
  }

  /** The keys of both tables after an event that syncs a subscription. */
  lemma ProcessKeys(s: State, e: Event, sub: StripeSub, now: int)
    requires e == SubscriptionChanged(sub) || (e.CheckoutSubscription? && e.started == sub)
    ensures var s' := Process(s, e, now).state;
      var toLeadFinder := if e.SubscriptionChanged? then sub.kind == LeadFinder else e.sessionKind == LeadFinder;
      && s'.directory.Keys == s.directory.Keys
           + (if sub.kind == Directory && Creates(s, Directory, sub, now) then {sub.id} else {})
      && s'.leadFinder.Keys == s.leadFinder.Keys
           + (if toLeadFinder && !DirectoryThrows(s, e, now) && Creates(s, LeadFinder, sub, now) then {sub.id} else {})
  {
    ThrowGuards(s, e, now);
    DirectorySyncKeys(s, sub, now);
    LeadFinderSyncKeys(SyncDirectory(s, sub, now).state, sub, now);
  }

  lemma OtherEventsKeepKeys(s: State, e: Event, now: int)
    requires !e.SubscriptionChanged? && !e.CheckoutSubscription?
    ensures Process(s, e, now).state.directory.Keys == s.directory.Keys
    ensures Process(s, e, now).state.leadFinder.Keys == s.leadFinder.Keys
  {
  }

  /** Disjoint tables stay disjoint exactly when the event does not leave the one
      subscription it syncs in both. */
  lemma DisjointIff(s: State, e: Event, now: int)
    requires DisjointTables(s)
    ensures DisjointTables(Process(s, e, now).state) <==> !Overlaps(s, e, now)
  {
    match e
    case CheckoutSubscription(_, sub) => ProcessKeys(s, e, sub, now);
    case SubscriptionChanged(sub) =>
      ProcessKeys(s, e, sub, now);
      assert sub.kind == LeadFinder ==> !DirectoryThrows(s, e, now);
    case _ => OtherEventsKeepKeys(s, e, now);
  }

  // ── Consistent metadata ───────────────────────────────────────────────

  /** `kinds` says, once and for all, which product each subscription id belongs to. */
  ghost predicate Consistent(e: Event, kinds: nat -> Kind) {
    match e
    case CheckoutSubscription(sessionKind, sub) => sub.kind == kinds(sub.id) == sessionKind
    case SubscriptionChanged(sub) => sub.kind == kinds(sub.id)
    case InvoicePaid(invoice) => ConsistentInvoice(invoice, kinds)
    case InvoiceFailed(invoice) => ConsistentInvoice(invoice, kinds)
    case _ => true
  }

  ghost predicate ConsistentInvoice(invoice: StripeInvoice, kinds: nat -> Kind) {
    match invoice.subscription
    case Some(id) => invoice.kind == kinds(id)
    case None => invoice.kind == Directory
  }

  /** Each table only holds subscriptions of its own kind, so their ids are disjoint. */
  ghost predicate Separated(s: State, kinds: nat -> Kind) {
    && (forall id :: id in s.directory ==> kinds(id) == Directory)
    && (forall id :: id in s.leadFinder ==> kinds(id) == LeadFinder)
  }

  ghost predicate DirectoryUntouched(s: State, s': State) {
    s'.directory == s.directory && s'.invoices == s.invoices
  }

  ghost predicate LeadFinderUntouched(s: State, s': State) {
    s'.leadFinder == s.leadFinder && s'.credits == s.credits && s'.grants == s.grants
  }

  /** The product an event is about. */
  ghost function Concerns(e: Event, kinds: nat -> Kind): Kind {
    match e
    case CheckoutPayment(_, _) => LeadFinder
    case CheckoutSubscription(_, sub) => kinds(sub.id)
    case SubscriptionChanged(sub) => kinds(sub.id)
    case SubscriptionDeleted(id) => kinds(id)
    case InvoicePaid(invoice) => invoice.kind
    case InvoiceFailed(invoice) => invoice.kind
    case Unhandled => Directory
  }

  lemma DirectoryIsIdle(s: State, e: Event, now: int, kinds: nat -> Kind)
    requires Separated(s, kinds) && Consistent(e, kinds)
    requires Concerns(e, kinds) == LeadFinder && !e.CheckoutPayment?
    ensures HandleDirectory(s, e, now) == Effect(s, false)
  {
  }

  lemma LeadFinderIsIdle(s: State, e: Event, now: int, kinds: nat -> Kind)
    requires Separated(s, kinds) && Consistent(e, kinds)
    requires Concerns(e, kinds) == Directory || e.CheckoutPayment?
    ensures HandleLeadFinder(s, e, now) == Effect(s, false)
  {
  }

  /** The service an event is not for does nothing at all with it. */
  lemma OtherServiceIsIdle(s: State, e: Event, now: int, kinds: nat -> Kind)
    requires Separated(s, kinds) && Consistent(e, kinds)
    ensures Concerns(e, kinds) == LeadFinder && !e.CheckoutPayment? ==> HandleDirectory(s, e, now) == Effect(s, false)
    ensures Concerns(e, kinds) == Directory || e.CheckoutPayment? ==> HandleLeadFinder(s, e, now) == Effect(s, false)
  {
    if Concerns(e, kinds) == LeadFinder && !e.CheckoutPayment? {
      DirectoryIsIdle(s, e, now, kinds);
    } else {
      LeadFinderIsIdle(s, e, now, kinds);
    }
  }

  lemma DirectoryTouchesItsProduct(s: State, e: Event, now: int, kinds: nat -> Kind)
    requires Separated(s, kinds) && Consistent(e, kinds)
    ensures Separated(HandleDirectory(s, e, now).state, kinds)
    ensures e.CheckoutPayment? ==> DirectoryUntouched(s, HandleDirectory(s, e, now).state)
    ensures !e.CheckoutPayment? ==> LeadFinderUntouched(s, HandleDirectory(s, e, now).state)
  {
    match e
    case CheckoutSubscription(_, sub) => SyncTouchesItsProduct(s, sub, now, kinds);
    case SubscriptionChanged(sub) => SyncTouchesItsProduct(s, sub, now, kinds);
    case _ =>
  }

  lemma SyncTouchesItsProduct(s: State, sub: StripeSub, now: int, kinds: nat -> Kind)
    requires Separated(s, kinds) && sub.kind == kinds(sub.id)
    ensures Separated(SyncDirectory(s, sub, now).state, kinds)
    ensures LeadFinderUntouched(s, SyncDirectory(s, sub, now).state)
  {
  }

  lemma LeadFinderSyncTouchesItsProduct(s: State, sub: StripeSub, now: int, kinds: nat -> Kind)
    requires Separated(s, kinds) && kinds(sub.id) == LeadFinder
    ensures Separated(SyncLeadFinder(s, sub, now).state, kinds)
    ensures DirectoryUntouched(s, SyncLeadFinder(s, sub, now).state)
  {
  }

  lemma LeadFinderTouchesItsProduct(s: State, e: Event, now: int, kinds: nat -> Kind)
    requires Separated(s, kinds) && Consistent(e, kinds)
    ensures Separated(HandleLeadFinder(s, e, now).state, kinds)
    ensures DirectoryUntouched(s, HandleLeadFinder(s, e, now).state)
  {
    match e
    case CheckoutSubscription(sessionKind, sub) =>
      if sessionKind == LeadFinder { LeadFinderSyncTouchesItsProduct(s, sub, now, kinds); }
    case SubscriptionChanged(sub) =>
      if sub.kind == LeadFinder { LeadFinderSyncTouchesItsProduct(s, sub, now, kinds); }
    case _ =>
  }

  /** With consistent kinds order does not matter, a throw included, and an event changes
      the data of at most the product it concerns. */
  lemma ConsistentEventsKeepApart(s: State, e: Event, now: int, kinds: nat -> Kind)
    requires Separated(s, kinds) && Consistent(e, kinds)
    ensures !OrderMatters(s, e, now) && DisjointTables(s)
    ensures Separated(Process(s, e, now).state, kinds)
    ensures match Concerns(e, kinds)
            case Directory => LeadFinderUntouched(s, Process(s, e, now).state)
            case LeadFinder => DirectoryUntouched(s, Process(s, e, now).state)
  {
    assert forall id :: id in s.directory.Keys ==> kinds(id) == Directory;
    OtherServiceIsIdle(s, e, now, kinds);
    DirectoryTouchesItsProduct(s, e, now, kinds);
    OtherServiceIsIdle(HandleDirectory(s, e, now).state, e, now, kinds);
    LeadFinderTouchesItsProduct(HandleDirectory(s, e, now).state, e, now, kinds);
  }

  /** A run of events with either service first. `order` says which, event by event. */
  function Dispatch(s: State, events: seq<(Event, int)>, order: seq<bool>): State
    requires |order| == |events|
    decreases |events|
  {
    if events == [] then s
    else
      var (e, now) := events[0];
      var effect := if order[0] then Process(s, e, now) else ProcessSwapped(s, e, now);
      Dispatch(effect.state, events[1..], order[1..])
  }

  /** No event of the run is one on which the order matters. */
  ghost predicate NeverMatters(s: State, events: seq<(Event, int)>)
    decreases |events|
  {
    events != [] ==>
      && !OrderMatters(s, events[0].0, events[0].1)
      && NeverMatters(Process(s, events[0].0, events[0].1).state, events[1..])
  }

  /** Over any run on which the order never matters every choice of orders ends in the
      same state. */
  lemma {:induction false} DispatchOrderIsIrrelevant(s: State, events: seq<(Event, int)>, order: seq<bool>,
      other: seq<bool>)
    requires |order| == |events| == |other|
    requires NeverMatters(s, events)
    ensures Dispatch(s, events, order) == Dispatch(s, events, other)
    decreases |events|
  {
    if events != [] {
      var (e, now) := events[0];
      HandlersCommuteIff(s, e, now);
      DispatchOrderIsIrrelevant(Process(s, e, now).state, events[1..], order[1..], other[1..]);
    }
  }

  /** Runs of consistent events are such runs, and end with disjoint tables. */
  lemma {:induction false} ConsistentRuns(s: State, events: seq<(Event, int)>, order: seq<bool>, kinds: nat -> Kind)
    requires Separated(s, kinds) && |order| == |events|
    requires forall i :: 0 <= i < |events| ==> Consistent(events[i].0, kinds)
    ensures NeverMatters(s, events)
    ensures DisjointTables(Dispatch(s, events, order))
    decreases |events|
  {
    if events == [] {
      assert forall id :: id in s.directory.Keys ==> kinds(id) == Directory;
    } else {
      var (e, now) := events[0];
      assert Consistent(events[0].0, kinds);
      ConsistentEventsKeepApart(s, e, now, kinds);
      HandlersCommuteIff(s, e, now);
      ConsistentRuns(Process(s, e, now).state, events[1..], order[1..], kinds);
    }
  }

  /** A session stamped with the tier kind for a Directory subscription of an existing user
      puts that subscription into both tables, although nothing throws and the order of
      the services makes no difference. */
  lemma InconsistentSessionOverlaps(s: State, sub: StripeSub, now: int)
    requires DisjointTables(s) && HasMetadata(sub) && sub.kind == Directory
    requires Creates(s, Directory, sub, now) && Creates(s, LeadFinder, sub, now)
    ensures var e := CheckoutSubscription(LeadFinder, sub);
      && !DisjointTables(Process(s, e, now).state)
      && Process(s, e, now) == ProcessSwapped(s, e, now) && !Process(s, e, now).threw
  {
    var e := CheckoutSubscription(LeadFinder, sub);
    DisjointIff(s, e, now);
    WithoutThrowsOrderIsIrrelevant(s, e, now);
  }
}
