/** Why a row of the cold-outreach queue reads what it reads, and what the handlers report
    (src/prospect-campaign/prospect-campaign.service.ts:67-150, 313-422). */
module CampaignHistory {
  import opened Prelude
  import opened ProspectCampaign
  import opened CampaignSafety
  import opened CampaignServices

  // ── What one event does to a row ──────────────────────────────────────

  /** The pending rows among the first `n`. */
  function PendingRows(queue: seq<Row>, n: nat): set<nat>
    requires n <= |queue|
  {
    set i | 0 <= i < n && queue[i].status == Pending
  }

  lemma {:induction false} PendingBeforeCounts(queue: seq<Row>, n: nat)
    requires n <= |queue|
    ensures PendingBefore(queue, n) == |PendingRows(queue, n)|
  {
    if n > 0 {
      PendingBeforeCounts(queue, n - 1);
      var more := if queue[n - 1].status == Pending then {n - 1} else {};
      assert PendingRows(queue, n) == PendingRows(queue, n - 1) + more;
    }
  }

  /** Row `i` is one of the first `cap` pending rows. */
  predicate IsNext(s: State, i: nat)
    requires i < |s.queue|
  {
    s.queue[i].status == Pending && |PendingRows(s.queue, i)| < s.cap
  }

  /** The status a row is to have after an event. A drip closes the next `cap` pending
      rows: a user's is skipped as such even when the address is suppressed as well. */
  ghost predicate StatusAfter(rules: Rules, s: State, e: Event, i: nat, after: Status)
    requires i < |s.queue|
  {
    var row := s.queue[i];
    if e.Drip? && !s.paused && IsNext(s, i) then
      && (after == SkippedExistingUser <==> row.email in s.users)
      && (after == SkippedUnsubscribed <==> row.email !in s.users && row.email in s.suppressed)
      && (after == Sent <==> row.email !in s.users && row.email !in s.suppressed)
    else if e.Feedback? && row.email == rules.normalize(e.address) && row.status == Sent then
      (after == Complained <==> e.complained) && (after == Bounced <==> !e.complained)
    else after == row.status
  }

  /** What an event does to the rows there are, to the suppressions and to the addresses
      handed over. */
  lemma EventTable(rules: Rules, s: State, e: Event, i: nat)
    requires i < |s.queue|
    ensures var s' := Step(rules, s, e);
      && i < |s'.queue| && s'.queue[i].email == s.queue[i].email
      && StatusAfter(rules, s, e, i, s'.queue[i].status)
    ensures Step(rules, s, e).suppressed ==
        match e
        case Feedback(address, _) => s.suppressed + {rules.normalize(address)}
        case Unsubscribe(address) => s.suppressed + {address}
        case _ => s.suppressed
    ensures !e.Drip? || s.paused ==> Step(rules, s, e).handed == s.handed
  {
    PendingBeforeCounts(s.queue, i);
  }

  // ── Reasons ───────────────────────────────────────────────────────────

  /** Somewhere in the run a drip found the address among the users. */
  ghost predicate WasUser(rules: Rules, s: State, events: seq<Event>, email: Email) {
    exists k :: 0 <= k < |events| && events[k] == Drip && email in Run(rules, s, events[..k]).users
  }

  ghost predicate WasReported(rules: Rules, events: seq<Event>, email: Email, complained: bool) {
    exists k :: 0 <= k < |events| && events[k].Feedback?
      && rules.normalize(events[k].address) == email && events[k].complained == complained
  }

  /** The row's status has its cause in the run. */
  ghost predicate HasReason(rules: Rules, s: State, events: seq<Event>, row: Row) {
    var t := Run(rules, s, events);
    match row.status
    case Pending => row.email !in t.handed
    case Sent => row.email in t.handed
    case SkippedExistingUser => row.email !in t.handed && WasUser(rules, s, events, row.email)
    case SkippedUnsubscribed => row.email !in t.handed && row.email in t.suppressed
    case Bounced => row.email in t.handed && WasReported(rules, events, row.email, false)
    case Complained => row.email in t.handed && WasReported(rules, events, row.email, true)
  }

  lemma {:induction false} RunAppends(rules: Rules, s: State, events: seq<Event>, e: Event)
    ensures Run(rules, s, events + [e]) == Step(rules, Run(rules, s, events), e)
    decreases |events|
  {
    if events == [] {
      assert [] + [e] == [e] && [e][1..] == [];
    } else {
      assert (events + [e])[1..] == events[1..] + [e];
      RunAppends(rules, Step(rules, s, events[0]), events[1..], e);
    }
  }

  lemma ReasonsPersist(rules: Rules, s: State, events: seq<Event>, e: Event, email: Email, complained: bool)
    ensures WasUser(rules, s, events, email) ==> WasUser(rules, s, events + [e], email)
    ensures WasReported(rules, events, email, complained) ==> WasReported(rules, events + [e], email, complained)
    ensures e == Drip && email in Run(rules, s, events).users ==> WasUser(rules, s, events + [e], email)
    ensures e.Feedback? && e.complained == complained && rules.normalize(e.address) == email ==>
      WasReported(rules, events + [e], email, complained)
  {
    var longer := events + [e];
    if WasUser(rules, s, events, email) {
      var k :| 0 <= k < |events| && events[k] == Drip && email in Run(rules, s, events[..k]).users;
      assert longer[k] == Drip && longer[..k] == events[..k];
    }
    if WasReported(rules, events, email, complained) {
      var k :| 0 <= k < |events| && events[k].Feedback?
        && rules.normalize(events[k].address) == email && events[k].complained == complained;
      assert longer[k] == events[k];
    }
    assert longer[|events|] == e && longer[..|events|] == events;
  }

  /** Who a drip hands over: exactly the rows that go out. */
  lemma HandedByDrip(s: State, i: nat)
    requires Wf(s) && !s.paused && i < |s.queue|
    ensures s.queue[i].email in DripStep(s).handed <==> s.queue[i].email in s.handed || GoesOut(s, i)
  {
    SentRow(s, i);
  }

  lemma RowKeepsReason(rules: Rules, s: State, events: seq<Event>, e: Event, i: nat)
    requires var t := Run(rules, s, events); Wf(t) && i < |t.queue| && HasReason(rules, s, events, t.queue[i])
    ensures var t := Run(rules, s, events + [e]); i < |t.queue| && HasReason(rules, s, events + [e], t.queue[i])
  {
    var t := Run(rules, s, events);
    RunAppends(rules, s, events, e);
    EventTable(rules, t, e, i);
    ReasonsPersist(rules, s, events, e, t.queue[i].email, true);
    ReasonsPersist(rules, s, events, e, t.queue[i].email, false);
    PendingBeforeCounts(t.queue, i);
    if e.Drip? && !t.paused { HandedByDrip(t, i); }
  }

  lemma FreshRowsHaveReasons(rules: Rules, s: State, events: seq<Event>, raws: seq<string>, i: nat)
    requires var t := Run(rules, s, events); Wf(t) && |t.queue| <= i
    requires i < |UploadStep(rules, Run(rules, s, events), raws).queue|
    ensures HasReason(rules, s, events + [Upload(raws)], UploadStep(rules, Run(rules, s, events), raws).queue[i])
  {
    var t := Run(rules, s, events);
    var added, row := ToQueue(rules, t, raws), UploadStep(rules, t, raws).queue[i];
    RunAppends(rules, s, events, Upload(raws));
    ToQueueFacts(rules, t, raws);
    assert row == Row(added[i - |t.queue|], Pending) && row.email in added;
    assert row.email !in Queued(t.queue);
  }

  /** Over any run from an empty queue every row reads what has happened to its address:
      pending ones were never handed over and sent ones were; a skipped one was a user when
      a drip came to it, or is suppressed; bounces and complaints were reported as such. */
  lemma {:induction false} EveryStatusHasItsReason(rules: Rules, s: State, events: seq<Event>, i: nat)
    requires s.queue == [] && s.handed == []
    ensures Wf(Run(rules, s, events))
    ensures i < |Run(rules, s, events).queue| ==> HasReason(rules, s, events, Run(rules, s, events).queue[i])
    decreases |events|
  {
    if events != [] {
      var init, last := events[..|events| - 1], events[|events| - 1];
      assert init + [last] == events;
      var t := Run(rules, s, init);
      EveryStatusHasItsReason(rules, s, init, i);
      RunAppends(rules, s, init, last);
      StepKeepsWf(rules, t, last);
      if i < |t.queue| {
        RowKeepsReason(rules, s, init, last, i);
      } else if last.Upload? && i < |Step(rules, t, last).queue| {
        FreshRowsHaveReasons(rules, s, init, last.raws, i);
      }
    }
  }

  // ── Reports ───────────────────────────────────────────────────────────

  /** Row `i` is next, and its address is a user's, is only suppressed, or is neither. */
  predicate NextOf(s: State, i: nat, isUser: bool, optedOut: bool)
    requires i < |s.queue|
  {
    && IsNext(s, i)
    && (s.queue[i].email in s.users) == isUser
    && (isUser || (s.queue[i].email in s.suppressed) == optedOut)
  }

  function NextIs(s: State, isUser: bool, optedOut: bool): nat -> bool {
    (i: nat) => i < |s.queue| && NextOf(s, i, isUser, optedOut)
  }

  function NextRows(s: State, n: nat, isUser: bool, optedOut: bool): set<nat> {
    Below(n, NextIs(s, isUser, optedOut))
  }

  lemma NextRowsGrow(s: State, n: nat, isUser: bool, optedOut: bool)
    requires 0 < n <= |s.queue|
    ensures |NextRows(s, n, isUser, optedOut)|
         == |NextRows(s, n - 1, isUser, optedOut)| + if NextOf(s, n - 1, isUser, optedOut) then 1 else 0
  {
    BelowGrows(n - 1, NextIs(s, isUser, optedOut));
  }

  /** The drip's three counts are the sizes of those classes. */
  lemma {:induction false} DripReportCounts(s: State, n: nat)
    requires n <= |s.queue|
    ensures ClosedAs(s, SkippedExistingUser, n) == |NextRows(s, n, true, false)|
    ensures ClosedAs(s, SkippedUnsubscribed, n) == |NextRows(s, n, false, true)|
    ensures |ToSend(s, n)| == |NextRows(s, n, false, false)|
  {
    if n > 0 {
      DripReportCounts(s, n - 1);
      PendingBeforeCounts(s.queue, n - 1);
      NextRowsGrow(s, n, true, false);
      NextRowsGrow(s, n, false, true);
      NextRowsGrow(s, n, false, false);
    }
  }

  function InvalidAt(rules: Rules, raws: seq<string>): set<nat> {
    set i | 0 <= i < |raws| && !rules.isEmail(rules.normalize(raws[i]))
  }

  /** The invalid lines an upload reports, repeats included. */
  lemma {:induction false} InvalidLinesCounted(rules: Rules, raws: seq<string>)
    ensures InvalidCount(rules, raws) == |InvalidAt(rules, raws)|
  {
    if raws != [] {
      var n := |raws| - 1;
      InvalidLinesCounted(rules, raws[..n]);
      if rules.isEmail(rules.normalize(raws[n])) {
        assert InvalidAt(rules, raws) == InvalidAt(rules, raws[..n]);
      } else {
        assert InvalidAt(rules, raws) == InvalidAt(rules, raws[..n]) + {n};
      }
    }
  }

  // ── Order ─────────────────────────────────────────────────────────────

  /** Line `i` is the first that names the address. */
  ghost predicate FirstAt(rules: Rules, raws: seq<string>, email: Email, i: nat) {
    && i < |raws| && rules.normalize(raws[i]) == email
    && forall j :: 0 <= j < i ==> rules.normalize(raws[j]) != email
  }

  lemma FirstStays(rules: Rules, raws: seq<string>, email: Email, i: nat)
    requires raws != []
    ensures FirstAt(rules, raws[..|raws| - 1], email, i) ==> FirstAt(rules, raws, email, i)
  {
  }

  /** The candidates come in the order in which the list first names them. */
  lemma {:induction false} CandidatesInListOrder(rules: Rules, raws: seq<string>, a: nat, b: nat)
      returns (i: nat, j: nat)
    requires a < b < |DistinctValid(rules, raws)|
    ensures i < j
    ensures FirstAt(rules, raws, DistinctValid(rules, raws)[a], i)
    ensures FirstAt(rules, raws, DistinctValid(rules, raws)[b], j)
  {
    var n, all := |raws| - 1, DistinctValid(rules, raws);
    var earlier := DistinctValid(rules, raws[..n]);
    DistinctValidFacts(rules, raws[..n]);
    if b < |earlier| {
      i, j := CandidatesInListOrder(rules, raws[..n], a, b);
      FirstStays(rules, raws, all[a], i);
      FirstStays(rules, raws, all[b], j);
    } else {
      assert all[a] == earlier[a] && all[a] in earlier;
      i := FirstOf(rules, raws[..n], all[a]);
      j := n;
      FirstStays(rules, raws, all[a], i);
      forall k | 0 <= k < n ensures rules.normalize(raws[k]) != all[b] {
        assert raws[..n][k] == raws[k];
      }
    }
  }

  lemma {:induction false} FirstOf(rules: Rules, raws: seq<string>, email: Email) returns (i: nat)
    requires exists k :: 0 <= k < |raws| && rules.normalize(raws[k]) == email
    ensures FirstAt(rules, raws, email, i)
  {
    var n := |raws| - 1;
    if exists k :: 0 <= k < n && rules.normalize(raws[..n][k]) == email {
      i := FirstOf(rules, raws[..n], email);
      FirstStays(rules, raws, email, i);
    } else {
      i := n;
      forall j | 0 <= j < n ensures rules.normalize(raws[j]) != email {
        assert raws[..n][j] == raws[j];
      }
    }
  }

  lemma {:induction false} KeepInOrder(candidates: seq<Email>, drop: set<Email>, a: nat, b: nat)
      returns (i: nat, j: nat)
    requires a < b < |Keep(candidates, drop)|
    ensures i < j < |candidates|
    ensures candidates[i] == Keep(candidates, drop)[a] && candidates[j] == Keep(candidates, drop)[b]
  {
    var n := |candidates| - 1;
    var earlier := Keep(candidates[..n], drop);
    if b < |earlier| {
      i, j := KeepInOrder(candidates[..n], drop, a, b);
    } else {
      i := KeptFrom(candidates[..n], drop, a);
      j := n;
    }
  }

  lemma {:induction false} KeptFrom(candidates: seq<Email>, drop: set<Email>, a: nat) returns (i: nat)
    requires a < |Keep(candidates, drop)|
    ensures i < |candidates| && candidates[i] == Keep(candidates, drop)[a]
  {
    var n := |candidates| - 1;
    if a < |Keep(candidates[..n], drop)| {
      i := KeptFrom(candidates[..n], drop, a);
    } else {
      i := n;
    }
  }

  /** An upload queues its addresses in the order in which the list first names them. */
  lemma QueuedInListOrder(rules: Rules, s: State, raws: seq<string>, a: nat, b: nat) returns (i: nat, j: nat)
    requires |s.queue| <= a < b < |UploadStep(rules, s, raws).queue|
    ensures i < j
    ensures FirstAt(rules, raws, UploadStep(rules, s, raws).queue[a].email, i)
    ensures FirstAt(rules, raws, UploadStep(rules, s, raws).queue[b].email, j)
  {
    var n, drop := |s.queue|, s.users + s.suppressed + Queued(s.queue);
    var p, q := KeepInOrder(DistinctValid(rules, raws), drop, a - n, b - n);
    i, j := CandidatesInListOrder(rules, raws, p, q);
  }
}
