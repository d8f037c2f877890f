/** The campaign handlers in the source's own shape: the chunked upload loop and the
    drip loop, each proved equal to its step in ProspectCampaign
    (src/prospect-campaign/prospect-campaign.service.ts:67-150 and 313-422). */
module CampaignServices {
  import opened Prelude
  import opened ProspectCampaign
  import opened CampaignSafety

  /** The batch: the first `cap` pending rows, in order. */
  function Candidates(queue: seq<Row>, cap: nat, n: nat): seq<nat>
    requires n <= |queue|
  {
    if n == 0 then []
    else Candidates(queue, cap, n - 1) + if InBatch(queue, cap, n - 1) then [n - 1] else []
  }

  lemma {:induction false} CandidatesFacts(queue: seq<Row>, cap: nat, n: nat)
    requires n <= |queue|
    ensures forall a, b :: 0 <= a < b < |Candidates(queue, cap, n)| ==>
        Candidates(queue, cap, n)[a] < Candidates(queue, cap, n)[b]
    ensures forall a :: 0 <= a < |Candidates(queue, cap, n)| ==>
              Candidates(queue, cap, n)[a] < n && InBatch(queue, cap, Candidates(queue, cap, n)[a])
    ensures forall i :: 0 <= i < n && InBatch(queue, cap, i) ==> i in Candidates(queue, cap, n)
  {
    if n > 0 { CandidatesFacts(queue, cap, n - 1); }
  }

  /** Addresses of the first `k` candidates that go out, in order. */
  function Outgoing(s: State, batch: seq<nat>, k: nat): seq<Email>
    requires k <= |batch| && forall a :: 0 <= a < |batch| ==> batch[a] < |s.queue|
  {
    if k == 0 then []
    else
      var email := s.queue[batch[k - 1]].email;
      Outgoing(s, batch, k - 1) + if email in s.users || email in s.suppressed then [] else [email]
  }

  lemma {:induction false} OutgoingPrefix(s: State, batch: seq<nat>, longer: seq<nat>, k: nat)
    requires k <= |batch| && batch <= longer
    requires forall a :: 0 <= a < |longer| ==> longer[a] < |s.queue|
    ensures Outgoing(s, batch, k) == Outgoing(s, longer, k)
  {
    if k > 0 { OutgoingPrefix(s, batch, longer, k - 1); }
  }

  lemma {:induction false} CandidatesInRange(queue: seq<Row>, cap: nat, n: nat)
    requires n <= |queue|
    ensures forall a :: 0 <= a < |Candidates(queue, cap, n)| ==> Candidates(queue, cap, n)[a] < n
  {
    if n > 0 { CandidatesInRange(queue, cap, n - 1); }
  }

  lemma {:induction false} OutgoingIsToSend(s: State, n: nat, batch: seq<nat>)
    requires n <= |s.queue| && batch == Candidates(s.queue, s.cap, n)
    requires forall a :: 0 <= a < |batch| ==> batch[a] < |s.queue|
    ensures Outgoing(s, batch, |batch|) == ToSend(s, n)
  {
    if n > 0 {
      var shorter := Candidates(s.queue, s.cap, n - 1);
      CandidatesInRange(s.queue, s.cap, n - 1);
      OutgoingIsToSend(s, n - 1, shorter);
      OutgoingPrefix(s, shorter, batch, |shorter|);
      if InBatch(s.queue, s.cap, n - 1) {
        assert batch == shorter + [n - 1] && batch[|batch| - 1] == n - 1;
      } else {
        assert batch == shorter;
      }
    }
  }

  /** Rows among the first `n` that the drip closes with the given status. */
  function ClosedAs(s: State, status: Status, n: nat): nat
    requires n <= |s.queue|
  {
    if n == 0 then 0
    else ClosedAs(s, status, n - 1) + if InBatch(s.queue, s.cap, n - 1) && DripRow(s, n - 1).status == status then 1
        else 0
  }

  /** The same, counted along the batch. */
  function CountAs(s: State, batch: seq<nat>, status: Status, k: nat): nat
    requires k <= |batch| && forall a :: 0 <= a < |batch| ==> batch[a] < |s.queue|
  {
    if k == 0 then 0
    else CountAs(s, batch, status, k - 1)
         + if Settle(s.queue[batch[k - 1]], s.users, s.suppressed).status == status then 1 else 0
  }

  lemma {:induction false} CountPrefix(s: State, batch: seq<nat>, longer: seq<nat>, status: Status, k: nat)
    requires k <= |batch| && batch <= longer
    requires forall a :: 0 <= a < |longer| ==> longer[a] < |s.queue|
    ensures CountAs(s, batch, status, k) == CountAs(s, longer, status, k)
  {
    if k > 0 { CountPrefix(s, batch, longer, status, k - 1); }
  }

  lemma {:induction false} CountIsClosed(s: State, status: Status, n: nat, batch: seq<nat>)
    requires n <= |s.queue| && batch == Candidates(s.queue, s.cap, n)
    requires forall a :: 0 <= a < |batch| ==> batch[a] < |s.queue|
    ensures CountAs(s, batch, status, |batch|) == ClosedAs(s, status, n)
  {
    if n > 0 {
      var shorter := Candidates(s.queue, s.cap, n - 1);
      CandidatesInRange(s.queue, s.cap, n - 1);
      CountIsClosed(s, status, n - 1, shorter);
      CountPrefix(s, shorter, batch, status, |shorter|);
      if InBatch(s.queue, s.cap, n - 1) {
        assert batch == shorter + [n - 1] && batch[|batch| - 1] == n - 1;
      } else {
        assert batch == shorter;
      }
    }
  }

  lemma {:induction false} KeepIgnores(candidates: seq<Email>, a: set<Email>, b: set<Email>)
    requires forall i :: 0 <= i < |candidates| ==> (candidates[i] in a <==> candidates[i] in b)
    ensures Keep(candidates, a) == Keep(candidates, b)
  {
    if candidates != [] { KeepIgnores(candidates[..|candidates| - 1], a, b); }
  }

  // ── The drip loop's progress ──────────────────────────────────────────

  predicate IsSkipped(s: State, i: nat)
    requires i < |s.queue|
  {
    s.queue[i].email in s.users || s.queue[i].email in s.suppressed
  }

  /** The queue once the first `k` candidates have been sorted out. */
  ghost predicate Progress(s: State, queue: seq<Row>, batch: seq<nat>, k: nat)
    requires k <= |batch|
  {
    && |queue| == |s.queue|
    && (forall i :: 0 <= i < |queue| ==>
          queue[i] == if i in batch[..k] && IsSkipped(s, i) then Settle(s.queue[i], s.users, s.suppressed)
              else s.queue[i])
  }

  /** The queue after the loop. */
  ghost predicate Sorted(s: State, queue: seq<Row>) {
    && |queue| == |s.queue|
    && (forall i :: 0 <= i < |queue| ==>
          queue[i] == if InBatch(s.queue, s.cap, i) && IsSkipped(s, i) then Settle(s.queue[i], s.users, s.suppressed)
                      else s.queue[i])
  }

  lemma CandidateUntouched(s: State, queue: seq<Row>, batch: seq<nat>, k: nat)
    requires batch == Candidates(s.queue, s.cap, |s.queue|) && k < |batch|
    requires Progress(s, queue, batch, k)
    ensures batch[k] < |queue| && queue[batch[k]] == s.queue[batch[k]]
  {
    CandidatesFacts(s.queue, s.cap, |s.queue|);
    assert batch[k] !in batch[..k];
  }

  lemma ProgressStep(s: State, before: seq<Row>, after: seq<Row>, batch: seq<nat>, k: nat)
    requires batch == Candidates(s.queue, s.cap, |s.queue|) && k < |batch|
    requires Progress(s, before, batch, k) && batch[k] < |before|
    requires after == if IsSkipped(s, batch[k])
        then before[batch[k] := Settle(s.queue[batch[k]], s.users, s.suppressed)] else before
    ensures Progress(s, after, batch, k + 1)
  {
    assert forall i :: i in batch[..k + 1] <==> i in batch[..k] || i == batch[k];
    CandidateUntouched(s, before, batch, k);
  }

  /** Where the drip's loop stands after `k` candidates: the queue, the addresses to send
      to, and the two counters. */
  ghost predicate Sorting(
    s: State, queue: seq<Row>, batch: seq<nat>, k: nat, toSend: seq<Email>, existing: nat, unsubscribed: nat)
    requires k <= |batch| && forall a :: 0 <= a < |batch| ==> batch[a] < |s.queue|
  {
    && Progress(s, queue, batch, k)
    && toSend == Outgoing(s, batch, k)
    && existing == CountAs(s, batch, SkippedExistingUser, k)
    && unsubscribed == CountAs(s, batch, SkippedUnsubscribed, k)
    && |toSend| + existing + unsubscribed == k
  }

  /** What one candidate does to them. */
  lemma SortingStep(
    s: State, before: seq<Row>, after: seq<Row>, batch: seq<nat>, k: nat, toSend: seq<Email>, existing: nat,
        unsubscribed: nat)
    requires batch == Candidates(s.queue, s.cap, |s.queue|) && k < |batch|
    requires forall a :: 0 <= a < |batch| ==> batch[a] < |s.queue|
    requires Sorting(s, before, batch, k, toSend, existing, unsubscribed)
    requires var row := s.queue[batch[k]];
      && |before| == |s.queue|
      && after == if IsSkipped(s, batch[k]) then before[batch[k] := Settle(row, s.users, s.suppressed)] else before
    ensures var email := s.queue[batch[k]].email;
      Sorting(s, after, batch, k + 1,
              if IsSkipped(s, batch[k]) then toSend else toSend + [email],
              if email in s.users then existing + 1 else existing,
              if email !in s.users && email in s.suppressed then unsubscribed + 1 else unsubscribed)
  {
    ProgressStep(s, before, after, batch, k);
  }

  lemma AllSorted(s: State, queue: seq<Row>, batch: seq<nat>)
    requires batch == Candidates(s.queue, s.cap, |s.queue|)
    requires Progress(s, queue, batch, |batch|)
    ensures Sorted(s, queue)
  {
    CandidatesFacts(s.queue, s.cap, |s.queue|);
    assert batch[..|batch|] == batch;
  }

  lemma EmptyBatch(s: State)
    requires !s.paused && Candidates(s.queue, s.cap, |s.queue|) == []
    ensures DripStep(s) == s
  {
    CandidatesFacts(s.queue, s.cap, |s.queue|);
    OutgoingIsToSend(s, |s.queue|, []);
    assert forall i :: 0 <= i < |s.queue| ==> DripRow(s, i) == s.queue[i];
    assert s.handed + [] == s.handed;
  }

  /** The queue with every row of the given addresses SENT. */
  function WithSent(rows: seq<Row>, emails: seq<Email>): seq<Row> {
    seq(|rows|, i requires 0 <= i < |rows| => if rows[i].email in emails then rows[i].(status := Sent) else rows[i])
  }

  lemma NobodySent(rows: seq<Row>)
    ensures WithSent(rows, []) == rows
  {
  }

  /** Marking the outgoing addresses SENT completes the drip: each has one row. */
  lemma DripCompletes(s: State, sorted: seq<Row>)
    requires !s.paused && DistinctRows(s.queue) && Sorted(s, sorted)
    ensures DripStep(s) == s.(queue := WithSent(sorted, ToSend(s, |s.queue|)),
        handed := s.handed + ToSend(s, |s.queue|))
  {
    var queue := WithSent(sorted, ToSend(s, |s.queue|));
    forall i | 0 <= i < |queue| ensures queue[i] == DripRow(s, i) {
      SentRow(s, i);
      assert sorted[i].email == s.queue[i].email;
    }
    assert DripStep(s).queue == queue;
  }

  datatype UploadReport = UploadReport(queued: nat, alreadyQueued: nat, alreadyHasAccount: nat, unsubscribed: nat,
      invalid: nat, total: nat)

  datatype DripReport = DripReport(sent: nat, skippedExisting: nat, skippedUnsubscribed: nat, batchSize: nat)

  class ProspectCampaignService {
    const rules: Rules
    var queue: seq<Row>
    var users: set<Email>
    var suppressed: set<Email>
    var handed: seq<Email>
    var dailyCap: nat
    var paused: bool

    constructor (rules: Rules)
      ensures this.rules == rules && Snapshot() == State([], {}, {}, [], 25, false)
    {
      this.rules := rules;
      queue, users, suppressed, handed, dailyCap, paused := [], {}, {}, [], 25, false;
    }

    function Snapshot(): State
      reads this
    {
      State(queue, users, suppressed, handed, dailyCap, paused)
    }

    method NormalizeAndValidate(raws: seq<string>) returns (valid: seq<Email>, invalid: nat)
      ensures valid == DistinctValid(rules, raws) && invalid == InvalidCount(rules, raws)
    {
      valid, invalid := [], 0;
      for i := 0 to |raws|
        invariant valid == DistinctValid(rules, raws[..i]) && invalid == InvalidCount(rules, raws[..i])
      {
        assert raws[..i + 1][..|raws[..i + 1]| - 1] == raws[..i];
        var email := rules.normalize(raws[i]);
        if rules.isEmail(email) {
          if email !in valid { valid := valid + [email]; }
        } else {
          invalid := invalid + 1;
        }
      }
      assert raws[..|raws|] == raws;
    }

    /** Reads the three tables chunk by chunk, whatever the chunk size. */
    method LookUp(candidates: seq<Email>, chunkSize: nat)
        returns (existing: set<Email>, optedOut: set<Email>, alreadyQueued: set<Email>)
      requires chunkSize > 0
      ensures existing == set e | e in candidates && e in users
      ensures optedOut == set e | e in candidates && e in suppressed
      ensures alreadyQueued == set e | e in candidates && e in Queued(queue)
    {
      existing, optedOut, alreadyQueued := {}, {}, {};
      var i := 0;
      while i < |candidates|
        invariant 0 <= i <= |candidates|
        invariant existing == set e | e in candidates[..i] && e in users
        invariant optedOut == set e | e in candidates[..i] && e in suppressed
        invariant alreadyQueued == set e | e in candidates[..i] && e in Queued(queue)
      {
        var end := if i + chunkSize <= |candidates| then i + chunkSize else |candidates|;
        var chunk := candidates[i..end];
        existing := existing + set e | e in chunk && e in users;
        optedOut := optedOut + set e | e in chunk && e in suppressed;
        alreadyQueued := alreadyQueued + set e | e in chunk && e in Queued(queue);
        assert candidates[..end] == candidates[..i] + chunk;
        i := end;
      }
      assert candidates[..|candidates|] == candidates;
    }

    method EnqueueUploadedEmails(raws: seq<string>, chunkSize: nat) returns (report: UploadReport)
      requires chunkSize > 0
      modifies this`queue
      ensures Snapshot() == UploadStep(rules, old(Snapshot()), raws)
      ensures report == UploadReport(
                |queue| - old(|queue|),
                |set e | e in DistinctValid(rules, raws) && e in Queued(old(queue))|,
                |set e | e in DistinctValid(rules, raws) && e in users|,
                |set e | e in DistinctValid(rules, raws) && e in suppressed|,
                InvalidCount(rules, raws), |raws|)
    {
      var candidates, invalid := NormalizeAndValidate(raws);
      var existing, optedOut, alreadyQueued := LookUp(candidates, chunkSize);
      var toQueue := Keep(candidates, existing + optedOut + alreadyQueued);
      KeepIgnores(candidates, existing + optedOut + alreadyQueued, users + suppressed + Queued(queue));
      if |toQueue| > 0 {
        queue := queue + Rows(toQueue);
      }
      assert toQueue == [] ==> Rows(toQueue) == [];
      report := UploadReport(|toQueue|, |alreadyQueued|, |existing|, |optedOut|, invalid, |raws|);
    }

    /** `updateMany({ where: { email: { in } }, data: { status: 'SENT' } })` */
    method MarkSent(emails: seq<Email>)
      modifies this`queue
      ensures queue == WithSent(old(queue), emails)
    {
      var rows := queue;
      queue := seq(|rows|, i requires 0 <= i < |rows| => if rows[i].email in emails then rows[i].(status := Sent)
          else rows[i]);
    }

    /** The candidate loop: rows of users and of suppressed addresses are closed one by
        one, the rest collected. */
    method SortOut(batch: seq<nat>) returns (toSend: seq<Email>, skippedExisting: nat, skippedUnsubscribed: nat)
      requires batch == Candidates(queue, dailyCap, |queue|)
      modifies this`queue
      ensures Sorted(old(Snapshot()), queue)
      ensures toSend == ToSend(old(Snapshot()), old(|queue|))
      ensures |toSend| + skippedExisting + skippedUnsubscribed == |batch|
      ensures skippedExisting == ClosedAs(old(Snapshot()), SkippedExistingUser, old(|queue|))
      ensures skippedUnsubscribed == ClosedAs(old(Snapshot()), SkippedUnsubscribed, old(|queue|))
    {
      ghost var start := Snapshot();
      CandidatesInRange(start.queue, dailyCap, |start.queue|);
      toSend, skippedExisting, skippedUnsubscribed := [], 0, 0;
      for k := 0 to |batch|
        invariant users == start.users && suppressed == start.suppressed
        invariant Sorting(start, queue, batch, k, toSend, skippedExisting, skippedUnsubscribed)
      {
        CandidateUntouched(start, queue, batch, k);
        ghost var before, sending, existing, unsubscribed := queue, toSend, skippedExisting, skippedUnsubscribed;
        var row := queue[batch[k]];
        if row.email in users {
          queue := queue[batch[k] := row.(status := SkippedExistingUser)];
          skippedExisting := skippedExisting + 1;
        } else if row.email in suppressed {
          queue := queue[batch[k] := row.(status := SkippedUnsubscribed)];
          skippedUnsubscribed := skippedUnsubscribed + 1;
        } else {
          toSend := toSend + [row.email];
        }
        SortingStep(start, before, queue, batch, k, sending, existing, unsubscribed);
      }
      AllSorted(start, queue, batch);
      OutgoingIsToSend(start, |start.queue|, batch);
      CountIsClosed(start, SkippedExistingUser, |start.queue|, batch);
      CountIsClosed(start, SkippedUnsubscribed, |start.queue|, batch);
    }

    method RunDailyDrip() returns (report: DripReport)
      requires DistinctRows(queue)
      modifies this`queue, this`handed
      ensures Snapshot() == DripStep(old(Snapshot()))
      ensures report.sent == |handed| - old(|handed|)
      ensures report.sent + report.skippedExisting + report.skippedUnsubscribed == report.batchSize
      ensures !paused ==>
        && report.skippedExisting == ClosedAs(old(Snapshot()), SkippedExistingUser, old(|queue|))
        && report.skippedUnsubscribed == ClosedAs(old(Snapshot()), SkippedUnsubscribed, old(|queue|))
      ensures report.batchSize == if paused then 0 else Min(PendingBefore(old(queue), old(|queue|)), dailyCap)
    {
      if paused { return DripReport(0, 0, 0, 0); }
      ghost var start := Snapshot();
      var batch := Candidates(queue, dailyCap, |queue|);
      BatchSize(queue, dailyCap, |queue|);
      if |batch| == 0 {
        EmptyBatch(start);
        CountIsClosed(start, SkippedExistingUser, |start.queue|, batch);
        CountIsClosed(start, SkippedUnsubscribed, |start.queue|, batch);
        return DripReport(0, 0, 0, 0);
      }
      var toSend, skippedExisting, skippedUnsubscribed := SortOut(batch);
      ghost var sorted := queue;
      if |toSend| > 0 {
        handed := handed + toSend;
        MarkSent(toSend);
      } else {
        NobodySent(sorted);
        assert handed + toSend == handed;
      }
      DripCompletes(start, sorted);
      report := DripReport(|toSend|, skippedExisting, skippedUnsubscribed, |batch|);
    }

    method SuppressAndUpdateStatus(raw: Email, complained: bool)
      modifies this`queue, this`suppressed
      ensures Snapshot() == Step(rules, old(Snapshot()), Feedback(raw, complained))
    {
      var email := rules.normalize(raw);
      suppressed := suppressed + {email};
      var rows := queue;
      queue := seq(|rows|, i requires 0 <= i < |rows| =>
        if rows[i].email == email
            && rows[i].status == Sent then rows[i].(status := if complained then Complained else Bounced)
        else rows[i]);
    }
  }

  lemma {:induction false} BatchSize(queue: seq<Row>, cap: nat, n: nat)
    requires n <= |queue|
    ensures |Candidates(queue, cap, n)| == Min(PendingBefore(queue, n), cap)
  {
    if n > 0 { BatchSize(queue, cap, n - 1); }
  }

  /** An address is in the outgoing list exactly when its one row goes out. */
  lemma SentRow(s: State, i: nat)
    requires DistinctRows(s.queue) && i < |s.queue|
    ensures s.queue[i].email in ToSend(s, |s.queue|) <==> GoesOut(s, i)
  {
    ToSendFacts(s, |s.queue|);
  }
}
