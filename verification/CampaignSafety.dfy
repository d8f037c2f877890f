/** What every run of the prospect campaign keeps, and how fast the queue drains. */
module CampaignSafety {
  import opened Prelude
  import opened ProspectCampaign

  // ── Uploads ───────────────────────────────────────────────────────────

  ghost predicate NoRepeats(s: seq<Email>) {
    forall i, j :: 0 <= i < j < |s| ==> s[i] != s[j]
  }

  ghost predicate DistinctRows(queue: seq<Row>) {
    forall i, j :: 0 <= i < j < |queue| ==> queue[i].email != queue[j].email
  }

  lemma {:induction false} DistinctValidFacts(rules: Rules, raws: seq<string>)
    ensures NoRepeats(DistinctValid(rules, raws))
    ensures forall email :: email in DistinctValid(rules, raws) <==>
              rules.isEmail(email) && exists i :: 0 <= i < |raws| && rules.normalize(raws[i]) == email
  {
    if raws != [] {
      var init, last := raws[..|raws| - 1], rules.normalize(raws[|raws| - 1]);
      DistinctValidFacts(rules, init);
      forall email ensures email in DistinctValid(rules, raws) <==>
                             rules.isEmail(email) && exists i :: 0 <= i < |raws| && rules.normalize(raws[i]) == email
      {
        if exists i :: 0 <= i < |raws| && rules.normalize(raws[i]) == email {
          var i :| 0 <= i < |raws| && rules.normalize(raws[i]) == email;
          if i < |init| { assert rules.normalize(init[i]) == email; }
        }
        if exists i :: 0 <= i < |init| && rules.normalize(init[i]) == email {
          var i :| 0 <= i < |init| && rules.normalize(init[i]) == email;
          assert rules.normalize(raws[i]) == email;
        }
      }
    }
  }

  lemma {:induction false} KeepFacts(candidates: seq<Email>, drop: set<Email>)
    requires NoRepeats(candidates)
    ensures NoRepeats(Keep(candidates, drop))
    ensures forall email :: email in Keep(candidates, drop) <==> email in candidates && email !in drop
  {
    if candidates != [] {
      var init, last := candidates[..|candidates| - 1], candidates[|candidates| - 1];
      KeepFacts(init, drop);
      assert candidates == init + [last];
      assert last !in init;
    }
  }

  lemma AppendedEmails(queue: seq<Row>, added: seq<Email>)
    ensures Queued(queue + Rows(added)) == Queued(queue) + set email | email in added
  {
    var longer := queue + Rows(added);
    forall email ensures email in Queued(longer) <==> email in Queued(queue) || email in added {
      if email in Queued(queue) {
        var i :| 0 <= i < |queue| && queue[i].email == email;
        assert longer[i].email == email;
      }
      if email in added {
        var j :| 0 <= j < |added| && added[j] == email;
        assert longer[|queue| + j].email == email;
      }
    }
  }

  lemma AppendedDistinct(queue: seq<Row>, added: seq<Email>)
    requires DistinctRows(queue) && NoRepeats(added)
    requires forall j :: 0 <= j < |added| ==> added[j] !in Queued(queue)
    ensures DistinctRows(queue + Rows(added))
  {
    assert forall i :: 0 <= i < |queue| ==> queue[i].email in Queued(queue);
  }

  /** What an upload is meant to queue, said without loops, chunks or order. */
  ghost predicate Wanted(rules: Rules, s: State, raws: seq<string>, email: Email) {
    && rules.isEmail(email)
    && (exists i :: 0 <= i < |raws| && rules.normalize(raws[i]) == email)
    && email !in s.users && email !in s.suppressed && email !in Queued(s.queue)
  }

  lemma ToQueueFacts(rules: Rules, s: State, raws: seq<string>)
    ensures NoRepeats(ToQueue(rules, s, raws))
    ensures forall email :: email in ToQueue(rules, s, raws) <==> Wanted(rules, s, raws, email)
  {
    DistinctValidFacts(rules, raws);
    KeepFacts(DistinctValid(rules, raws), s.users + s.suppressed + Queued(s.queue));
  }

  /** An upload adds exactly the distinct valid normalised addresses that are not
      users, not suppressed and not queued yet; the queue stays duplicate-free, and
      what was in it stays as it was. */
  lemma UploadMeetsItsSpecification(rules: Rules, s: State, raws: seq<string>)
    requires DistinctRows(s.queue)
    ensures var s' := UploadStep(rules, s, raws);
      && DistinctRows(s'.queue)
      && s.queue <= s'.queue
      && (forall i :: |s.queue| <= i < |s'.queue| ==> s'.queue[i].status == Pending)
      && (forall email :: email in Queued(s'.queue) - Queued(s.queue) <==> Wanted(rules, s, raws, email))
  {
    var added := ToQueue(rules, s, raws);
    ToQueueFacts(rules, s, raws);
    forall j | 0 <= j < |added| ensures added[j] !in Queued(s.queue) {
      assert added[j] in added;
    }
    AppendedEmails(s.queue, added);
    AppendedDistinct(s.queue, added);
  }

  lemma EmptyOrMember(s: seq<Email>)
    ensures s == [] || exists email :: email in s
  {
    if s != [] { assert s[0] in s; }
  }

  /** Uploading the same list again queues nothing. */
  lemma RepeatedUploadQueuesNothing(rules: Rules, s: State, raws: seq<string>)
    requires DistinctRows(s.queue)
    ensures UploadStep(rules, UploadStep(rules, s, raws), raws) == UploadStep(rules, s, raws)
  {
    var s1 := UploadStep(rules, s, raws);
    ToQueueFacts(rules, s, raws);
    AppendedEmails(s.queue, ToQueue(rules, s, raws));
    ToQueueFacts(rules, s1, raws);
    forall email ensures email !in ToQueue(rules, s1, raws) {
      assert Wanted(rules, s1, raws, email) ==> Wanted(rules, s, raws, email);
    }
    EmptyOrMember(ToQueue(rules, s1, raws));
    assert Rows([]) == [];
  }

  // ── Drips ─────────────────────────────────────────────────────────────

  ghost predicate WasSent(status: Status) { status == Sent || status == Bounced || status == Complained }

  /** The invariant of every run: addresses queued once, handed over once and only
      with a row that says so, and every bounce or complaint suppressed. */
  ghost predicate Wf(s: State) {
    && DistinctRows(s.queue)
    && NoRepeats(s.handed)
    && (forall email :: email in s.handed ==>
         exists i :: 0 <= i < |s.queue| && s.queue[i].email == email && WasSent(s.queue[i].status))
    && (forall i :: 0 <= i < |s.queue| && (s.queue[i].status == Bounced || s.queue[i].status == Complained) ==>
          s.queue[i].email in s.suppressed)
  }

  /** Row `i` is in the batch and goes out. */
  ghost predicate GoesOut(s: State, i: nat)
    requires i < |s.queue|
  {
    InBatch(s.queue, s.cap, i) && s.queue[i].email !in s.users && s.queue[i].email !in s.suppressed
  }

  lemma {:induction false} ToSendFacts(s: State, n: nat)
    requires n <= |s.queue| && DistinctRows(s.queue)
    ensures NoRepeats(ToSend(s, n))
    ensures forall email :: email in ToSend(s, n) <==>
        exists i :: 0 <= i < n && s.queue[i].email == email && GoesOut(s, i)
  {
    if n > 0 {
      ToSendFacts(s, n - 1);
      var earlier := ToSend(s, n - 1);
      forall email ensures email in ToSend(s, n) <==>
          exists i :: 0 <= i < n && s.queue[i].email == email && GoesOut(s, i) {
        if email in earlier {
          var i :| 0 <= i < n - 1 && s.queue[i].email == email && GoesOut(s, i);
          assert 0 <= i < n && s.queue[i].email == email && GoesOut(s, i);
        }
        if exists i :: 0 <= i < n && s.queue[i].email == email && GoesOut(s, i) {
          var i :| 0 <= i < n && s.queue[i].email == email && GoesOut(s, i);
          if i < n - 1 { assert email in earlier; } else { assert s.queue[n - 1].email == email; }
        }
      }
      if GoesOut(s, n - 1) {
        forall k | 0 <= k < |earlier| ensures earlier[k] != s.queue[n - 1].email {
          assert earlier[k] in earlier;
        }
      }
    }
  }

  /** A drip hands over only addresses that are neither users nor suppressed at that
      moment, and none that was ever handed over before. */
  lemma HandedOverOnce(s: State)
    requires Wf(s)
    ensures forall email :: email in ToSend(s, |s.queue|) ==>
              email !in s.users && email !in s.suppressed && email !in s.handed
  {
    ToSendFacts(s, |s.queue|);
    forall email | email in ToSend(s, |s.queue|)
      ensures email !in s.users && email !in s.suppressed && email !in s.handed
    {
      var i :| 0 <= i < |s.queue| && s.queue[i].email == email && GoesOut(s, i);
      assert forall j :: 0 <= j < |s.queue| && s.queue[j].email == email ==> j == i;
    }
  }

  lemma HandedRowsAreSent(s: State, email: Email)
    requires Wf(s) && !s.paused
    requires email in s.handed + ToSend(s, |s.queue|)
    ensures exists i :: 0 <= i < |s.queue| && s.queue[i].email == email && WasSent(DripRow(s, i).status)
  {
    if email in s.handed {
      var i :| 0 <= i < |s.queue| && s.queue[i].email == email && WasSent(s.queue[i].status);
      assert DripRow(s, i) == s.queue[i];
    } else {
      ToSendFacts(s, |s.queue|);
      var i :| 0 <= i < |s.queue| && s.queue[i].email == email && GoesOut(s, i);
      assert DripRow(s, i).status == Sent;
    }
  }

  lemma AppendDistinct(a: seq<Email>, b: seq<Email>)
    requires NoRepeats(a) && NoRepeats(b) && forall email :: email in b ==> email !in a
    ensures NoRepeats(a + b)
  {
    assert forall k :: 0 <= k < |b| ==> b[k] in b;
    assert forall k :: 0 <= k < |a| ==> a[k] in a;
  }

  lemma DripKeepsWf(s: State)
    requires Wf(s)
    ensures Wf(DripStep(s))
  {
    if !s.paused {
      var s' := DripStep(s);
      HandedOverOnce(s);
      ToSendFacts(s, |s.queue|);
      AppendDistinct(s.handed, ToSend(s, |s.queue|));
      forall email | email in s'.handed
        ensures exists i :: 0 <= i < |s'.queue| && s'.queue[i].email == email && WasSent(s'.queue[i].status)
      {
        HandedRowsAreSent(s, email);
        var i :| 0 <= i < |s.queue| && s.queue[i].email == email && WasSent(DripRow(s, i).status);
        assert s'.queue[i] == DripRow(s, i);
      }
    }
  }

  lemma FeedbackKeepsWf(s: State, address: Email, complained: bool)
    requires Wf(s)
    ensures Wf(FeedbackStep(s, address, complained))
  {
    var s' := FeedbackStep(s, address, complained);
    forall email | email in s'.handed
      ensures exists i :: 0 <= i < |s'.queue| && s'.queue[i].email == email && WasSent(s'.queue[i].status)
    {
      var i :| 0 <= i < |s.queue| && s.queue[i].email == email && WasSent(s.queue[i].status);
      assert s'.queue[i].email == email && WasSent(s'.queue[i].status);
    }
  }

  lemma UploadKeepsWf(rules: Rules, s: State, raws: seq<string>)
    requires Wf(s)
    ensures Wf(UploadStep(rules, s, raws))
  {
    UploadMeetsItsSpecification(rules, s, raws);
    var s' := UploadStep(rules, s, raws);
    forall email | email in s'.handed
      ensures exists i :: 0 <= i < |s'.queue| && s'.queue[i].email == email && WasSent(s'.queue[i].status)
    {
      var i :| 0 <= i < |s.queue| && s.queue[i].email == email && WasSent(s.queue[i].status);
      assert s'.queue[i] == s.queue[i];
    }
  }

  lemma StepKeepsWf(rules: Rules, s: State, e: Event)
    requires Wf(s)
    ensures Wf(Step(rules, s, e))
  {
    match e
    case Upload(raws) => UploadKeepsWf(rules, s, raws);
    case Drip => DripKeepsWf(s);
    case Feedback(address, complained) => FeedbackKeepsWf(s, rules.normalize(address), complained);
    case _ =>
  }

  /** Statuses only move forward. */
  predicate Forward(before: Status, after: Status) {
    || before == after
    || (before == Pending && after != Pending)
    || (before == Sent && (after == Bounced || after == Complained))
  }

  lemma StepMovesForward(rules: Rules, s: State, e: Event, i: nat)
    requires i < |s.queue|
    ensures var s' := Step(rules, s, e);
      |s.queue| <= |s'.queue| && s'.queue[i].email == s.queue[i].email && Forward(s.queue[i].status, s'.queue[i].status)
    ensures s.handed <= Step(rules, s, e).handed
  {
  }

  /** Over any run, no address is handed to the bulk sender by the drip twice, rows
      stay in place with statuses that only move forward, nothing handed over is
      taken back, and every bounced or complaining address is suppressed. */
  lemma {:induction false} CampaignIsSafe(rules: Rules, s: State, events: seq<Event>, i: nat)
    requires Wf(s)
    ensures Wf(Run(rules, s, events))
    ensures s.handed <= Run(rules, s, events).handed
    ensures i < |s.queue| ==>
              && i < |Run(rules, s, events).queue|
              && Run(rules, s, events).queue[i].email == s.queue[i].email
              && Forward(s.queue[i].status, Run(rules, s, events).queue[i].status)
    decreases |events|
  {
    if events != [] {
      StepKeepsWf(rules, s, events[0]);
      if i < |s.queue| { StepMovesForward(rules, s, events[0], i); } else { HandedGrows(rules, s, events[0]); }
      CampaignIsSafe(rules, Step(rules, s, events[0]), events[1..], i);
    }
  }

  lemma HandedGrows(rules: Rules, s: State, e: Event)
    ensures s.handed <= Step(rules, s, e).handed
  {
  }

  // ── Progress ──────────────────────────────────────────────────────────

  /** A drip takes the first `cap` pending rows and no others. */
  lemma {:induction false} DripDrains(s: State, n: nat)
    requires !s.paused && n <= |s.queue|
    ensures PendingBefore(DripStep(s).queue, n) == PendingBefore(s.queue, n) - Min(PendingBefore(s.queue, n), s.cap)
  {
    if n > 0 {
      DripDrains(s, n - 1);
    }
  }

  /** Batch size as the handler reports it: rows sent plus rows skipped. */
  function SkippedCount(s: State, n: nat): nat
    requires n <= |s.queue|
  {
    if n == 0 then 0
    else SkippedCount(s, n - 1) +
         if InBatch(s.queue, s.cap, n - 1) && (s.queue[n - 1].email in s.users || s.queue[n - 1].email in s.suppressed)
         then 1 else 0
  }

  /** An unpaused drip removes exactly min(pending, cap) rows from PENDING, and every
      one of them was either sent or skipped. */
  lemma {:induction false} SentPlusSkippedIsTheBatch(s: State, n: nat)
    requires n <= |s.queue|
    ensures |ToSend(s, n)| + SkippedCount(s, n) == Min(PendingBefore(s.queue, n), s.cap)
  {
    if n > 0 { SentPlusSkippedIsTheBatch(s, n - 1); }
  }

  lemma {:induction false} FrontUnchanged(a: seq<Row>, b: seq<Row>, n: nat)
    requires n <= |a| && n <= |b|
    requires forall i :: 0 <= i < n ==> (a[i].status == Pending <==> b[i].status == Pending)
    ensures PendingBefore(a, n) == PendingBefore(b, n)
  {
    if n > 0 { FrontUnchanged(a, b, n - 1); }
  }

  function Drips(s: State, rules: Rules, events: seq<Event>): nat
    decreases |events|
  {
    if events == [] then 0
    else (if events[0].Drip? && !s.paused then 1 else 0) + Drips(Step(rules, s, events[0]), rules, events[1..])
  }

  lemma StepWaits(rules: Rules, s: State, e: Event, i: nat)
    requires i < |s.queue| && !e.SetCap?
    ensures var s' := Step(rules, s, e);
      && s'.cap == s.cap && i < |s'.queue|
      && (s'.queue[i].status == Pending ==>
            && s.queue[i].status == Pending
            && PendingBefore(s.queue, i) == PendingBefore(s'.queue, i) + if e.Drip? && !s.paused then s.cap else 0)
  {
    var s' := Step(rules, s, e);
    StepMovesForward(rules, s, e, i);
    if e.Drip? && !s.paused {
      DripDrains(s, i);
    } else {
      FrontUnchanged(s.queue, s'.queue, i);
    }
  }

  lemma OneMoreBatch(rest: nat, cap: nat)
    ensures (1 + rest) * cap == cap + rest * cap
  {
  }

  /** While a row is still pending, every unpaused drip so far has taken a full batch
      from in front of it; uploads behind it do not matter. */
  lemma {:induction false} PendingRowWaits(rules: Rules, s: State, events: seq<Event>, i: nat)
    requires i < |s.queue|
    requires forall k :: 0 <= k < |events| ==> !events[k].SetCap?
    ensures i < |Run(rules, s, events).queue|
    ensures Run(rules, s, events).queue[i].status == Pending ==>
              s.queue[i].status == Pending && PendingBefore(s.queue, i) >= Drips(s, rules, events) * s.cap
    decreases |events|
  {
    if events != [] {
      var s' := Step(rules, s, events[0]);
      StepWaits(rules, s, events[0], i);
      PendingRowWaits(rules, s', events[1..], i);
      OneMoreBatch(Drips(s', rules, events[1..]), s.cap);
    }
  }

  /** Progress: at a constant cap a row with k pending rows ahead of it has left
      PENDING by the (k / cap + 1)-th unpaused drip, whatever else happens. */
  lemma RowLeavesPending(rules: Rules, s: State, events: seq<Event>, i: nat)
    requires i < |s.queue| && s.cap > 0
    requires forall k :: 0 <= k < |events| ==> !events[k].SetCap?
    requires Drips(s, rules, events) >= PendingBefore(s.queue, i) / s.cap + 1
    ensures i < |Run(rules, s, events).queue|
    ensures Run(rules, s, events).queue[i].status != Pending
  {
    PendingRowWaits(rules, s, events, i);
    Overtaken(PendingBefore(s.queue, i), s.cap, Drips(s, rules, events));
  }

  lemma Overtaken(ahead: nat, cap: nat, drips: nat)
    requires cap > 0 && drips >= ahead / cap + 1
    ensures drips * cap > ahead
  {
    assert ahead < (ahead / cap + 1) * cap;
    assert drips * cap >= (ahead / cap + 1) * cap;
  }
}
