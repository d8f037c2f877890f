/** What "paid" means in terms of what was observed of a user's tier subscription
    (src/leads/leads.service.ts:232-247 over src/lead-finder-billing/lead-finder-billing.service.ts:228-313). */
module PaidAccess {
  import opened Prelude
  import opened Billing
  import opened BillingHistory
  import Leads

  predicate IsLiveOf(table: Table, id: nat, user: nat) {
    id in table && table[id].user == user && LiveStatus(table[id].status)
  }

  /** `findFirst` over the user's live tier rows, whichever the database returns first. */
  ghost predicate FirstLive(table: Table, user: nat, found: Option<Row>) {
    match found
    case Some(row) => exists id :: IsLiveOf(table, id, user) && table[id] == row
    case None => forall id :: !IsLiveOf(table, id, user)
  }

  lemma StreakStartIsUnique(history: seq<Observation>, j: nat, k: nat)
    requires j < |history| && history[j].Late? && StartsStreak(history, j)
    requires k < |history| && history[k].Late? && StartsStreak(history, k)
    ensures j == k
  {
  }

  /** The row is paid up, or its current past-due streak began less than a grace period ago. */
  ghost predicate StillCovered(row: Row, history: seq<Observation>, grace: nat, now: int) {
    || row.status == ACTIVE || row.status == TRIALING
    || (row.status == PAST_DUE
        && exists k :: 0 <= k < |history| && history[k].Late? && StartsStreak(history, k)
             && now < history[k].at + grace)
  }

  lemma AccessMeansCovered(row: Row, history: seq<Observation>, grace: nat, now: int)
    requires AccessFollowsHistory(row, history, grace, now)
    ensures LiveStatus(row.status) && HasActiveAccess(row, grace, now) <==> StillCovered(row, history, grace, now)
  {
    if row.status == PAST_DUE {
      var k :| 0 <= k < |history| && history[k].Late? && StartsStreak(history, k)
               && (HasActiveAccess(row, grace, now) <==> now < history[k].at + grace);
      forall j | 0 <= j < |history| && history[j].Late? && StartsStreak(history, j) ensures j == k {
        StreakStartIsUnique(history, j, k);
      }
    }
  }

  /** After these events row `id` of the tier table is the user's and still covered. */
  ghost predicate Covers(s: State, changes: seq<(Change, int)>, user: nat, id: nat, grace: nat, now: int) {
    var table := Run(s, changes).leadFinder;
    id in table && table[id].user == user && StillCovered(table[id], History(s, changes, LeadFinder, id), grace, now)
  }

  /** A row covers its user exactly when it is live and grants access. */
  lemma CoversIff(s: State, changes: seq<(Change, int)>, user: nat, id: nat, grace: nat, now: int)
    requires Wf(s) && s.leadFinder == map[]
    ensures var table := Run(s, changes).leadFinder;
      Covers(s, changes, user, id, grace, now)
      <==> IsLiveOf(table, id, user) && HasActiveAccess(table[id], grace, now)
  {
    var table := Run(s, changes).leadFinder;
    if id in table {
      AccessEndsWithTheGracePeriod(s, changes, LeadFinder, id, grace, now);
      AccessMeansCovered(table[id], History(s, changes, LeadFinder, id), grace, now);
    }
  }

  lemma OneLiveRow(table: Table, user: nat, a: nat, b: nat)
    requires OneLiveRowPerUser(table) && IsLiveOf(table, a, user) && IsLiveOf(table, b, user)
    ensures a == b
  {
  }

  /** After any sequence of Stripe events, and whichever live row is found first, a user
      is paid exactly if unlimited, an owner of a credit pack, or the holder of a tier
      subscription that is paid up or less than a grace period into its past-due streak. */
  lemma PaidFollowsHistory(
    c: Leads.Config, s: State, changes: seq<(Change, int)>, user: nat, unlimited: bool, boughtPack: bool,
    found: Option<Row>, now: int)
    requires Wf(s) && s.leadFinder == map[]
    requires FirstLive(Run(s, changes).leadFinder, user, found)
    ensures Leads.Paid(c, unlimited, Leads.Billed(found, boughtPack), now)
            <==> unlimited || boughtPack || exists id :: Covers(s, changes, user, id, c.grace, now)
  {
    var table := Run(s, changes).leadFinder;
    RunKeepsWf(s, changes);
    if found.Some? {
      var chosen :| IsLiveOf(table, chosen, user) && table[chosen] == found.value;
      CoversIff(s, changes, user, chosen, c.grace, now);
      forall id | Covers(s, changes, user, id, c.grace, now) ensures id == chosen {
        CoversIff(s, changes, user, id, c.grace, now);
        OneLiveRow(table, user, id, chosen);
      }
    } else {
      forall id ensures !Covers(s, changes, user, id, c.grace, now) {
        CoversIff(s, changes, user, id, c.grace, now);
      }
    }
  }
}
