/** A subscription row against the whole history of what was observed about it. */
module BillingHistory {
  import opened Prelude
  import opened Billing

  // ── At most one live row per user ─────────────────────────────────────

  ghost predicate RowWf(row: Row) {
    && (row.status == PAST_DUE ==> row.pastDueSince.Some?)
    && (row.status == ACTIVE || row.status == TRIALING || row.status == EXPIRED ==> row.pastDueSince.None?)
  }

  ghost predicate TableWf(table: Table) {
    && OneLiveRowPerUser(table)
    && forall id :: id in table ==> RowWf(table[id])
  }

  ghost predicate Wf(s: State) { TableWf(s.directory) && TableWf(s.leadFinder) }

  lemma AcceptedWriteKeepsTableWf(table: Table, id: nat, row: Row)
    requires TableWf(table) && RowWf(row) && !Rejects(table, id, row)
    ensures TableWf(table[id := row])
  {
  }

  lemma MarkCanceledKeepsTableWf(table: Table, id: nat)
    requires TableWf(table)
    ensures TableWf(MarkCanceled(table, id))
  {
  }

  lemma UpsertKeepsWf(s: State, kind: Kind, sub: StripeSub, user: nat, now: int)
    requires Wf(s)
    ensures Wf(UpsertSub(s, kind, sub, user, now).state)
  {
    var table := GetTable(s, kind);
    var row := SyncedRow(table, sub, user, now);
    if !Rejects(table, sub.id, row) { AcceptedWriteKeepsTableWf(table, sub.id, row); }
  }

  lemma DirectoryKeepsWf(s: State, e: Event, now: int)
    requires Wf(s)
    ensures Wf(HandleDirectory(s, e, now).state)
  {
    match e
    case CheckoutSubscription(_, sub) => SyncDirectoryKeepsWf(s, sub, now);
    case SubscriptionChanged(sub) => SyncDirectoryKeepsWf(s, sub, now);
    case SubscriptionDeleted(id) => MarkCanceledKeepsTableWf(s.directory, id);
    case InvoiceFailed(invoice) =>
      if invoice.subscription.Some? && invoice.subscription.value in s.directory {
        var id := invoice.subscription.value;
        var row := s.directory[id].(status := PAST_DUE,
            pastDueSince := PastDueSince(PAST_DUE, s.directory[id].pastDueSince, now));
        if !Rejects(s.directory, id, row) { AcceptedWriteKeepsTableWf(s.directory, id, row); }
      }
    case _ =>
  }

  lemma SyncDirectoryKeepsWf(s: State, sub: StripeSub, now: int)
    requires Wf(s)
    ensures Wf(SyncDirectory(s, sub, now).state)
  {
    if sub.user.Some? { UpsertKeepsWf(s, Directory, sub, sub.user.value, now); }
    var row := SyncedRow(s.directory, sub, 0, now);
    if !Rejects(s.directory, sub.id, row) { AcceptedWriteKeepsTableWf(s.directory, sub.id, row); }
  }

  lemma LeadFinderKeepsWf(s: State, e: Event, now: int)
    requires Wf(s)
    ensures Wf(HandleLeadFinder(s, e, now).state)
  {
    match e
    case CheckoutSubscription(_, sub) => if sub.user.Some? { UpsertKeepsWf(s, LeadFinder, sub, sub.user.value, now); }
    case SubscriptionChanged(sub) => if sub.user.Some? { UpsertKeepsWf(s, LeadFinder, sub, sub.user.value, now); }
    case SubscriptionDeleted(id) => MarkCanceledKeepsTableWf(s.leadFinder, id);
    case _ =>
  }

  lemma ApplyKeepsWf(s: State, change: Change, now: int)
    requires Wf(s)
    ensures Wf(Apply(s, change, now).state)
  {
    match change
    case Webhook(e) =>
      DirectoryKeepsWf(s, e, now);
      LeadFinderKeepsWf(HandleDirectory(s, e, now).state, e, now);
    case CancelLocally(id) =>
  }

  /** Every sequence of events keeps at most one live row per user and product, and
      a row's `pastDueSince` set when PAST_DUE and clear when ACTIVE or TRIALING. */
  lemma {:induction false} RunKeepsWf(s: State, changes: seq<(Change, int)>)
    requires Wf(s)
    ensures Wf(Run(s, changes))
    decreases |changes|
  {
    if changes != [] {
      ApplyKeepsWf(s, changes[0].0, changes[0].1);
      RunKeepsWf(Apply(s, changes[0].0, changes[0].1).state, changes[1..]);
    }
  }

  /** Stripe's three statuses of a subscription whose payment has failed. */
  predicate StripeLate(status: StripeStatus) { status == PastDue || status == Unpaid || status == Paused }

  predicate StripeLive(status: StripeStatus) { status == Active || status == Trialing || StripeLate(status) }

  /** The row's status says what Stripe's does. */
  predicate SaysSame(stripe: StripeStatus, status: Status) {
    && (status == ACTIVE <==> stripe == Active)
    && (status == TRIALING <==> stripe == Trialing)
    && (status == PAST_DUE <==> StripeLate(stripe))
    && (status == CANCELED <==> stripe == Canceled)
    && (status == EXPIRED <==> stripe == Incomplete || stripe == IncompleteExpired)
  }

  /** The row of `sub` says what Stripe says of its status, period end and pending
      cancellation, and nothing else has changed. */
  ghost predicate Recorded(s: State, s': State, kind: Kind, sub: StripeSub, owner: nat) {
    var table := GetTable(s', kind);
    && sub.id in table && table[sub.id].user == owner && SaysSame(sub.status, table[sub.id].status)
    && table[sub.id].periodEnd == sub.periodEnd && table[sub.id].cancelAtPeriodEnd == sub.cancelAtPeriodEnd
    && (StripeLive(sub.status) <==> LiveStatus(table[sub.id].status))
    && s' == PutTable(s, kind, GetTable(s, kind)[sub.id := table[sub.id]])
  }

  /** Another row of the user is live. */
  ghost predicate OtherLive(table: Table, id: nat, user: nat) {
    exists other :: other in table && other != id && table[other].user == user && LiveStatus(table[other].status)
  }

  /** Either the row of `sub` is recorded, or that Stripe subscription was cancelled, and
      nothing else done, while another row of the same user is live. */
  ghost predicate RecordedOrCancelled(s: State, s': State, kind: Kind, sub: StripeSub, owner: nat) {
    || Recorded(s, s', kind, sub, owner)
    || (s' == s.(cancelled := s.cancelled + {sub.id}) && OtherLive(GetTable(s, kind), sub.id, owner))
  }

  /** The user of a subscription: its row's if there is one, the metadata's otherwise. */
  function Owner(s: State, kind: Kind, id: nat, user: nat): nat {
    if id in GetTable(s, kind) then GetTable(s, kind)[id].user else user
  }

  /** An upsert records the row unless Stripe says the subscription is live and another row
      of the user is; then it cancels that subscription. */
  lemma UpsertIsRecordedOrCancelled(s: State, kind: Kind, sub: StripeSub, user: nat, now: int)
    requires sub.id in GetTable(s, kind) || user in s.credits
    ensures var effect, owner := UpsertSub(s, kind, sub, user, now), Owner(s, kind, sub.id, user);
      && !effect.threw
      && (if StripeLive(sub.status) && OtherLive(GetTable(s, kind), sub.id, owner)
          then effect.state == s.(cancelled := s.cancelled + {sub.id})
          else Recorded(s, effect.state, kind, sub, owner))
  {
  }

  /** After any run, an event that brings a subscription with our metadata ends with its
      row recorded as Stripe has it or, if it is live and another row of the user is too,
      with that subscription cancelled and nothing else done; the tables stay
      well-formed. It throws exactly when the metadata names a user who does not exist
      and there is no row to update. */
  lemma SyncEventOutcome(s: State, changes: seq<(Change, int)>, e: Event, sub: StripeSub, now: int)
    requires Wf(s)
    requires e == SubscriptionChanged(sub) || e == CheckoutSubscription(sub.kind, sub)
    requires sub.user.Some? && sub.product.Some?
    ensures var before := Run(s, changes);
      var effect, owner := Process(before, e, now), Owner(before, sub.kind, sub.id, sub.user.value);
      && Wf(effect.state)
      && (effect.threw <==> sub.id !in GetTable(before, sub.kind) && sub.user.value !in before.credits)
      && (effect.threw ==> effect.state == before)
      && (!effect.threw ==>
            if StripeLive(sub.status) && OtherLive(GetTable(before, sub.kind), sub.id, owner)
            then effect.state == before.(cancelled := before.cancelled + {sub.id})
            else Recorded(before, effect.state, sub.kind, sub, owner))
  {
    var before := Run(s, changes);
    RunKeepsWf(s, changes);
    ApplyKeepsWf(before, Webhook(e), now);
    assert Process(before, e, now) == UpsertSub(before, sub.kind, sub, sub.user.value, now);
    if sub.id in GetTable(before, sub.kind) || sub.user.value in before.credits {
      UpsertIsRecordedOrCancelled(before, sub.kind, sub, sub.user.value, now);
    }
  }

  /** In particular a live subscription is never left out of the table while Stripe goes
      on charging for it. */
  lemma LiveEventIsRecordedOrCancelled(s: State, changes: seq<(Change, int)>, e: Event, sub: StripeSub, now: int)
    requires Wf(s)
    requires e == SubscriptionChanged(sub) || e == CheckoutSubscription(sub.kind, sub)
    requires sub.user.Some? && sub.product.Some? && StripeLive(sub.status)
    ensures var before := Run(s, changes);
      var effect := Process(before, e, now);
      !effect.threw ==>
        RecordedOrCancelled(before, effect.state, sub.kind, sub, Owner(before, sub.kind, sub.id, sub.user.value))
  {
    SyncEventOutcome(s, changes, e, sub, now);
  }

  // ── pastDueSince as a function of history ─────────────────────────────

  /** What an accepted write tells about a row: past due at this time, or not. */
  datatype Observation = Late(at: int) | Cleared

  function SyncObservation(sub: StripeSub, now: int): Observation {
    if StripeLate(sub.status) then Late(now) else Cleared
  }

  /** There is a row to update or a user to create one for, and the row would not be a
      second live one of its user. */
  ghost predicate Accepted(s: State, kind: Kind, sub: StripeSub) {
    var table := GetTable(s, kind);
    && (sub.id in table || (sub.user.Some? && sub.product.Some? && sub.user.value in s.credits))
    && !(StripeLive(sub.status)
         && OtherLive(table, sub.id, Owner(s, kind, sub.id, if sub.user.Some? then sub.user.value else 0)))
  }

  /** What one change tells about row `id` of a product's table. Deletes, local
      cancels, events of other subscriptions and rejected writes tell nothing. */
  ghost function Observed(s: State, change: Change, now: int, kind: Kind, id: nat): seq<Observation> {
    match change
    case CancelLocally(_) => []
    case Webhook(e) =>
      match kind
      case Directory => ObservedDirectory(s, e, now, id)
      case LeadFinder =>
        var first := HandleDirectory(s, e, now);
        if first.threw then [] else ObservedLeadFinder(first.state, e, now, id)
  }

  ghost function ObservedSync(s: State, kind: Kind, sub: StripeSub, now: int, id: nat): seq<Observation> {
    if sub.id == id && Accepted(s, kind, sub) then [SyncObservation(sub, now)] else []
  }

  ghost function ObservedDirectory(s: State, e: Event, now: int, id: nat): seq<Observation> {
    match e
    case CheckoutSubscription(_, sub) => if sub.kind == Directory then ObservedSync(s, Directory, sub, now, id) else []
    case SubscriptionChanged(sub) => if sub.kind == Directory then ObservedSync(s, Directory, sub, now, id) else []
    case InvoiceFailed(invoice) =>
      if invoice.subscription == Some(id) && id in s.directory
         && !OtherLive(s.directory, id, s.directory[id].user) then [Late(now)] else []
    case _ => []
  }

  /** Without user and tier in its metadata a Lead Finder sync does nothing. */
  ghost function ObservedLeadFinder(s: State, e: Event, now: int, id: nat): seq<Observation> {
    match e
    case CheckoutSubscription(sessionKind, sub) =>
      if sessionKind == LeadFinder && sub.user.Some?
          && sub.product.Some? then ObservedSync(s, LeadFinder, sub, now, id) else []
    case SubscriptionChanged(sub) =>
      if sub.kind == LeadFinder && sub.user.Some? && sub.product.Some? then ObservedSync(s, LeadFinder, sub, now, id)
          else []
    case _ => []
  }

  ghost function History(s: State, changes: seq<(Change, int)>, kind: Kind, id: nat): seq<Observation>
    decreases |changes|
  {
    if changes == [] then []
    else Observed(s, changes[0].0, changes[0].1, kind, id)
         + History(Apply(s, changes[0].0, changes[0].1).state, changes[1..], kind, id)
  }

  /** `since` is the time of the first past-due observation after the last cleared one. */
  ghost predicate FirstLate(history: seq<Observation>, since: Option<int>) {
    match since
    case None => forall k :: 0 <= k < |history| && history[k].Late? ==> ClearedIn(history, k, |history|)
    case Some(t) => exists k :: 0 <= k < |history| && history[k] == Late(t) && StartsStreak(history, k)
  }

  ghost predicate ClearedIn(history: seq<Observation>, from: nat, to: nat)
    requires to <= |history|
  {
    exists m :: from < m < to && history[m] == Cleared
  }

  ghost predicate StartsStreak(history: seq<Observation>, k: nat)
    requires k < |history|
  {
    && !ClearedIn(history, k, |history|)
    && forall j :: 0 <= j < k && history[j].Late? ==> ClearedIn(history, j, k)
  }

  lemma FirstLateExtends(history: seq<Observation>, since: Option<int>, o: Observation)
    requires FirstLate(history, since)
    ensures FirstLate(history + [o],
        match o case Late(t) => (if since.Some? then since else Some(t)) case Cleared => None)
  {
    var longer, n := history + [o], |history|;
    forall from, to | 0 <= from < to <= n ensures ClearedIn(longer, from, to) <==> ClearedIn(history, from, to) {
      if ClearedIn(longer, from, to) {
        var m :| from < m < to && longer[m] == Cleared;
        assert history[m] == Cleared;
      }
      if ClearedIn(history, from, to) {
        var m :| from < m < to && history[m] == Cleared;
        assert longer[m] == Cleared;
      }
    }
    match o
    case Cleared =>
      assert longer[n] == Cleared;
    case Late(t) =>
      if since.None? {
        forall j | 0 <= j < n && longer[j].Late? ensures ClearedIn(longer, j, n) {
          assert history[j].Late?;
        }
        assert longer[n] == Late(t) && StartsStreak(longer, n);
      } else {
        var k :| 0 <= k < n && history[k] == Late(since.value) && StartsStreak(history, k);
        assert longer[k] == Late(since.value);
        forall m | k < m < n + 1 ensures longer[m] != Cleared {
          if m < n { assert longer[m] == history[m]; }
        }
        forall j | 0 <= j < k && longer[j].Late? ensures ClearedIn(longer, j, k) {
          assert history[j].Late?;
        }
        assert StartsStreak(longer, k);
      }
  }

  /** What a row's `pastDueSince` becomes after the observations of one change. */
  ghost predicate Moved(before: Table, after: Table, seen: seq<Observation>, id: nat) {
    && (id in before ==> id in after)
    && (seen == [] ==> (id in before <==> id in after))
    && (seen == [] && id in before ==> after[id].pastDueSince == before[id].pastDueSince)
    && (seen != [] ==>
          && |seen| == 1 && id in after
          && after[id].pastDueSince ==
               match seen[0]
               case Late(t) => (if id in before && before[id].pastDueSince.Some? then before[id].pastDueSince
                   else Some(t))
               case Cleared => None)
  }

  /** A write of a sync's row is rejected exactly when the sync is not accepted. */
  lemma RejectsIff(s: State, kind: Kind, sub: StripeSub, user: nat, now: int)
    ensures var table := GetTable(s, kind);
      Rejects(table, sub.id, SyncedRow(table, sub, user, now))
      <==> StripeLive(sub.status) && OtherLive(table, sub.id, Owner(s, kind, sub.id, user))
  {
  }

  lemma SyncMoves(s: State, sub: StripeSub, now: int, id: nat)
    ensures Moved(s.directory, SyncDirectory(s, sub, now).state.directory,
                  if sub.kind == Directory then ObservedSync(s, Directory, sub, now, id) else [], id)
    ensures SyncDirectory(s, sub, now).state.leadFinder == s.leadFinder
  {
    RejectsIff(s, Directory, sub, if sub.user.Some? then sub.user.value else 0, now);
    if sub.kind == Directory && sub.id in s.directory && !(sub.user.Some? && sub.product.Some?) {
      RejectsIff(s, Directory, sub, 0, now);
    }
  }

  lemma DirectoryMoves(s: State, e: Event, now: int, id: nat)
    ensures Moved(s.directory, HandleDirectory(s, e, now).state.directory, ObservedDirectory(s, e, now, id), id)
    ensures HandleDirectory(s, e, now).state.leadFinder == s.leadFinder
  {
    match e
    case CheckoutSubscription(_, sub) => SyncMoves(s, sub, now, id);
    case SubscriptionChanged(sub) => SyncMoves(s, sub, now, id);
    case _ =>
  }

  lemma LeadFinderSyncMoves(s: State, sub: StripeSub, now: int, id: nat)
    ensures Moved(s.leadFinder, SyncLeadFinder(s, sub, now).state.leadFinder,
                  if sub.user.Some? && sub.product.Some? then ObservedSync(s, LeadFinder, sub, now, id) else [], id)
    ensures SyncLeadFinder(s, sub, now).state.directory == s.directory
  {
  }

  lemma LeadFinderMoves(s: State, e: Event, now: int, id: nat)
    ensures Moved(s.leadFinder, HandleLeadFinder(s, e, now).state.leadFinder, ObservedLeadFinder(s, e, now, id), id)
    ensures HandleLeadFinder(s, e, now).state.directory == s.directory
  {
    match e
    case CheckoutSubscription(_, sub) => LeadFinderSyncMoves(s, sub, now, id);
    case SubscriptionChanged(sub) => LeadFinderSyncMoves(s, sub, now, id);
    case _ =>
  }

  lemma ApplyMoves(s: State, change: Change, now: int, kind: Kind, id: nat)
    ensures Moved(GetTable(s, kind), GetTable(Apply(s, change, now).state, kind), Observed(s, change, now, kind, id),
        id)
  {
    match change
    case Webhook(e) =>
      DirectoryMoves(s, e, now, id);
      LeadFinderMoves(HandleDirectory(s, e, now).state, e, now, id);
    case CancelLocally(_) =>
  }

  /** A row's `pastDueSince` is the one the history calls for; no row, no history. */
  ghost predicate Tracks(table: Table, id: nat, history: seq<Observation>) {
    if id in table then FirstLate(history, table[id].pastDueSince) else history == []
  }

  lemma MoveKeepsTrack(before: Table, after: Table, seen: seq<Observation>, id: nat, earlier: seq<Observation>)
    requires Tracks(before, id, earlier) && Moved(before, after, seen, id)
    ensures Tracks(after, id, earlier + seen)
  {
    if seen == [] {
      assert earlier + seen == earlier;
    } else {
      assert seen == [seen[0]];
      if id !in before { assert FirstLate([], None); }
      FirstLateExtends(earlier, if id in before then before[id].pastDueSince else None, seen[0]);
    }
  }

  /** The incrementally kept `pastDueSince` is the first past-due time of the current
      streak of the whole history, in either table and over any sequence of changes;
      it is untouched by deletes, repeats, rejected writes and everything about
      other subscriptions. */
  lemma {:induction false} PastDueSinceIsFirstLate(
    s: State, changes: seq<(Change, int)>, kind: Kind, id: nat, earlier: seq<Observation>)
    requires Tracks(GetTable(s, kind), id, earlier)
    ensures Tracks(GetTable(Run(s, changes), kind), id, earlier + History(s, changes, kind, id))
    decreases |changes|
  {
    if changes == [] {
      assert earlier + [] == earlier;
    } else {
      var (change, now) := changes[0];
      var s' := Apply(s, change, now).state;
      var seen, rest := Observed(s, change, now, kind, id), History(s', changes[1..], kind, id);
      ApplyMoves(s, change, now, kind, id);
      MoveKeepsTrack(GetTable(s, kind), GetTable(s', kind), seen, id, earlier);
      PastDueSinceIsFirstLate(s', changes[1..], kind, id, earlier + seen);
      assert earlier + seen + rest == earlier + (seen + rest);
    }
  }

  // ── What that means for access ────────────────────────────────────────

  /** Access to a row against the history of what was observed about it. */
  ghost predicate AccessFollowsHistory(row: Row, history: seq<Observation>, grace: nat, now: int) {
    match row.status
    case PAST_DUE =>
      exists k :: 0 <= k < |history| && history[k].Late? && StartsStreak(history, k)
                  && (HasActiveAccess(row, grace, now) <==> now < history[k].at + grace)
                  && (HasDirectoryAccess(row, grace, now) <==> now < history[k].at + grace)
    case ACTIVE => HasActiveAccess(row, grace, now) && HasDirectoryAccess(row, grace, now) && FirstLate(history, None)
    case TRIALING => HasActiveAccess(row, grace, now) && HasDirectoryAccess(row, grace, now) && FirstLate(history, None)
    case CANCELED => !HasActiveAccess(row, grace, now) && HasDirectoryAccess(row, grace, now)
    case EXPIRED => !HasActiveAccess(row, grace, now) && !HasDirectoryAccess(row, grace, now)
  }

  lemma RowAccess(row: Row, history: seq<Observation>, grace: nat, now: int)
    requires RowWf(row) && FirstLate(history, row.pastDueSince)
    ensures AccessFollowsHistory(row, history, grace, now)
  {
    if row.status == PAST_DUE {
      var k :| 0 <= k < |history| && history[k] == Late(row.pastDueSince.value) && StartsStreak(history, k);
      assert history[k].Late? && history[k].at == row.pastDueSince.value;
    }
  }

  /** In every reachable state access does not depend on the branch for a missing
      `pastDueSince`, and during a past-due streak it ends exactly one grace period
      after the streak's first observation. */
  lemma AccessEndsWithTheGracePeriod(s: State, changes: seq<(Change, int)>, kind: Kind, id: nat, grace: nat, now: int)
    requires Wf(s) && id !in GetTable(s, kind)
    requires id in GetTable(Run(s, changes), kind)
    ensures var row := GetTable(Run(s, changes), kind)[id];
      && (row.status == PAST_DUE ==> row.pastDueSince.Some?)
      && AccessFollowsHistory(row, History(s, changes, kind, id), grace, now)
  {
    RunKeepsWf(s, changes);
    PastDueSinceIsFirstLate(s, changes, kind, id, []);
    assert [] + History(s, changes, kind, id) == History(s, changes, kind, id);
    RowAccess(GetTable(Run(s, changes), kind)[id], History(s, changes, kind, id), grace, now);
  }

  /** The history has at most one current streak. */
  lemma FirstLateIsUnique(history: seq<Observation>, a: Option<int>, b: Option<int>)
    requires FirstLate(history, a) && FirstLate(history, b)
    ensures a == b
  {
    if a.Some? && b.Some? {
      var j :| 0 <= j < |history| && history[j] == Late(a.value) && StartsStreak(history, j);
      var k :| 0 <= k < |history| && history[k] == Late(b.value) && StartsStreak(history, k);
      assert j == k;
    }
  }
}
