/** The "renews in 7 days" mail: a daily scan with a two-day window and a per-period
    memory (src/renewal-reminder/renewal-reminder.service.ts:29-112). Times are
    milliseconds.

    A scan that reaches a row makes two calls that fail independently: putting the mail
    in the queue, whose failure the e-mail service swallows
    (src/email/email.service.ts:183-195 and 239-254), and marking the row. */
module RenewalReminder {
  import opened Prelude

  const DAY: int := 86_400_000
  const WINDOW_START_DAYS: int := 6
  const WINDOW_END_DAYS: int := 8

  /** A subscription row; `renewing` is "ACTIVE or TRIALING". */
  datatype Row = Row(renewing: bool, cancelAtPeriodEnd: bool, periodEnd: int, remindedFor: Option<int>)

  /** The `where` clause of the scan. */
  predicate Due(row: Row, now: int) {
    && row.renewing && !row.cancelAtPeriodEnd
    && now + WINDOW_START_DAYS * DAY <= row.periodEnd <= now + WINDOW_END_DAYS * DAY
  }

  /** The scan gets to the row's two calls. */
  predicate Reaches(row: Row, now: int) {
    Due(row, now) && row.remindedFor != Some(row.periodEnd)
  }

  function Mark(row: Row, now: int, marked: bool): Row {
    if Reaches(row, now) && marked then row.(remindedFor := Some(row.periodEnd)) else row
  }

  /** One scan and the answers to its two calls. */
  datatype Scan = Scan(now: int, queued: bool, marked: bool)

  /** What happens to one row: scans, and everything else that changes it. */
  datatype Event =
    | Scanned(scan: Scan)
    | Update(renewing: bool, cancelAtPeriodEnd: bool)
    | Renew(periodEnd: int)

  function Step(row: Row, e: Event): Row {
    match e
    case Scanned(scan) => Mark(row, scan.now, scan.marked)
    case Update(renewing, cancelAtPeriodEnd) => row.(renewing := renewing, cancelAtPeriodEnd := cancelAtPeriodEnd)
    case Renew(periodEnd) => row.(periodEnd := periodEnd)
  }

  function After(row: Row, events: seq<Event>): Row {
    if events == [] then row else Step(After(row, events[..|events| - 1]), events[|events| - 1])
  }

  predicate Issues(row: Row, e: Event) { e.Scanned? && Reaches(row, e.scan.now) && e.scan.queued }

  /** Reminders put in the queue. */
  function Issued(row: Row, events: seq<Event>): nat {
    if events == [] then 0
    else
      var earlier, last := events[..|events| - 1], events[|events| - 1];
      Issued(row, earlier) + if Issues(After(row, earlier), last) then 1 else 0
  }

  /** Reminders put in the queue whose row could then not be marked. */
  function Unmarked(row: Row, events: seq<Event>): nat {
    if events == [] then 0
    else
      var earlier, last := events[..|events| - 1], events[|events| - 1];
      Unmarked(row, earlier) + if Issues(After(row, earlier), last) && !last.scan.marked then 1 else 0
  }

  // ── How many at most ──────────────────────────────────────────────────

  lemma {:induction false} SamePeriod(row: Row, events: seq<Event>)
    requires forall i :: 0 <= i < |events| ==> events[i].Renew? ==> events[i].periodEnd == row.periodEnd
    ensures After(row, events).periodEnd == row.periodEnd
  {
    if events != [] { SamePeriod(row, events[..|events| - 1]); }
  }

  /** While the period end stays the same, whatever else changes and however often the
      scan runs, at most one reminder goes out beyond those whose row could not be marked,
      and none beyond them once the row is marked. */
  lemma {:induction false} OneBeyondTheUnmarked(row: Row, events: seq<Event>)
    requires forall i :: 0 <= i < |events| ==> events[i].Renew? ==> events[i].periodEnd == row.periodEnd
    ensures Issued(row, events) <= Unmarked(row, events) + 1
    ensures Issued(row, events) > Unmarked(row, events) ==> After(row, events).remindedFor == Some(row.periodEnd)
    ensures row.remindedFor == Some(row.periodEnd) ==>
              Issued(row, events) == 0 && After(row, events).remindedFor == Some(row.periodEnd)
  {
    if events != [] {
      OneBeyondTheUnmarked(row, events[..|events| - 1]);
      SamePeriod(row, events[..|events| - 1]);
    }
  }

  // ── Exactly how many ──────────────────────────────────────────────────

  function Scans(scans: seq<Scan>): seq<Event> {
    seq(|scans|, i requires 0 <= i < |scans| => Scanned(scans[i]))
  }

  predicate InWindow(now: int, periodEnd: int) {
    periodEnd - WINDOW_END_DAYS * DAY <= now <= periodEnd - WINDOW_START_DAYS * DAY
  }

  predicate Eligible(row: Row) {
    row.renewing && !row.cancelAtPeriodEnd && row.remindedFor != Some(row.periodEnd)
  }

  predicate MarkedBefore(scans: seq<Scan>, n: nat, periodEnd: int)
    requires n <= |scans|
  {
    exists j :: 0 <= j < n && InWindow(scans[j].now, periodEnd) && scans[j].marked
  }

  /** The scans in the window up to the first that marks the row, as far as they queued
      the mail. */
  function Sending(scans: seq<Scan>, periodEnd: int): set<nat> {
    set i | 0 <= i < |scans| && InWindow(scans[i].now, periodEnd) && scans[i].queued
        && !MarkedBefore(scans, i, periodEnd)
  }

  lemma {:induction false} AfterScans(row: Row, scans: seq<Scan>)
    requires Eligible(row)
    ensures After(row, Scans(scans)) ==
        if MarkedBefore(scans, |scans|, row.periodEnd) then row.(remindedFor := Some(row.periodEnd)) else row
  {
    if scans != [] {
      var init := scans[..|scans| - 1];
      AfterScans(row, init);
      assert Scans(scans)[..|scans| - 1] == Scans(init);
      MarkedInPrefix(scans, row.periodEnd);
    }
  }

  lemma MarkedInPrefix(scans: seq<Scan>, periodEnd: int)
    requires scans != []
    ensures forall i :: 0 <= i < |scans| ==>
        (MarkedBefore(scans, i, periodEnd) <==> MarkedBefore(scans[..|scans| - 1], i, periodEnd))
    ensures var last := scans[|scans| - 1];
      MarkedBefore(scans, |scans|, periodEnd)
      <==> MarkedBefore(scans, |scans| - 1, periodEnd) || (InWindow(last.now, periodEnd) && last.marked)
  {
    var init := scans[..|scans| - 1];
    forall i | 0 <= i < |scans| ensures MarkedBefore(scans, i, periodEnd) <==> MarkedBefore(init, i, periodEnd) {
      assert forall j :: 0 <= j < i ==> init[j] == scans[j];
    }
  }

  lemma SendingGrows(scans: seq<Scan>, periodEnd: int)
    requires scans != []
    ensures var n := |scans| - 1;
      var sends := InWindow(scans[n].now, periodEnd) && scans[n].queued && !MarkedBefore(scans, n, periodEnd);
      |Sending(scans, periodEnd)| == |Sending(scans[..n], periodEnd)| + if sends then 1 else 0
  {
    var n := |scans| - 1;
    MarkedInPrefix(scans, periodEnd);
    var sends := InWindow(scans[n].now, periodEnd) && scans[n].queued && !MarkedBefore(scans, n, periodEnd);
    assert Sending(scans, periodEnd) == Sending(scans[..n], periodEnd) + if sends then {n} else {};
  }

  /** For a row that stays eligible the reminders issued are exactly those scans. */
  lemma {:induction false} IssuedAreTheSending(row: Row, scans: seq<Scan>)
    requires Eligible(row)
    ensures Issued(row, Scans(scans)) == |Sending(scans, row.periodEnd)|
  {
    if scans != [] {
      var n := |scans| - 1;
      IssuedAreTheSending(row, scans[..n]);
      AfterScans(row, scans[..n]);
      assert Scans(scans)[..n] == Scans(scans[..n]);
      MarkedInPrefix(scans, row.periodEnd);
      SendingGrows(scans, row.periodEnd);
    }
  }

  lemma OneMember(s: set<nat>)
    ensures |s| == 1 <==> exists i :: s == {i}
  {
    if |s| == 1 {
      var i :| i in s;
      assert |s - {i}| == 0;
      assert s == {i};
    }
  }

  /** Exactly one reminder for the period if and only if, among the scans inside the window
      up to the first that marks the row, exactly one put the mail in the queue. */
  lemma ExactlyOneIff(row: Row, scans: seq<Scan>)
    requires Eligible(row)
    ensures Issued(row, Scans(scans)) == 1 <==> exists i :: Sending(scans, row.periodEnd) == {i}
  {
    IssuedAreTheSending(row, scans);
    OneMember(Sending(scans, row.periodEnd));
  }

  /** A mark that fails after the mail was queued: the next scan sends a second one. */
  lemma FailedMarkSendsTwice(row: Row, first: int, second: int)
    requires Eligible(row) && InWindow(first, row.periodEnd) && InWindow(second, row.periodEnd)
    ensures Issued(row, Scans([Scan(first, true, false), Scan(second, true, true)])) == 2
  {
    var scans := [Scan(first, true, false), Scan(second, true, true)];
    IssuedAreTheSending(row, scans);
    assert !MarkedBefore(scans, 0, row.periodEnd) && !MarkedBefore(scans, 1, row.periodEnd);
    assert Sending(scans, row.periodEnd) == {0, 1};
  }

  /** A queue failure is swallowed and the row marked all the same: no scan tries again. */
  lemma SwallowedFailureSendsNone(row: Row, first: int, later: seq<Scan>)
    requires Eligible(row) && InWindow(first, row.periodEnd)
    ensures Issued(row, Scans([Scan(first, false, true)] + later)) == 0
  {
    var scans := [Scan(first, false, true)] + later;
    IssuedAreTheSending(row, scans);
    assert InWindow(scans[0].now, row.periodEnd) && scans[0].marked;
    forall i | 0 < i < |scans| ensures MarkedBefore(scans, i, row.periodEnd) {
    }
    assert Sending(scans, row.periodEnd) == {};
  }

  // ── Schedules that never miss the window ──────────────────────────────

  /** Scans in order, at most `gap` apart, that begin no later than the window's end
      and go on at least to its start. */
  ghost predicate Covers(times: seq<int>, gap: int, periodEnd: int) {
    && times != []
    && (forall i :: 0 <= i < |times| - 1 ==> times[i] <= times[i + 1] <= times[i] + gap)
    && times[0] <= periodEnd - WINDOW_START_DAYS * DAY
    && periodEnd - WINDOW_END_DAYS * DAY <= times[|times| - 1]
  }

  /** Two days, and the one millisecond by which a closed window holds more instants. */
  const WIDEST_GAP: int := 2 * DAY + 1

  lemma {:induction false} SomeScanHitsTheWindow(times: seq<int>, periodEnd: int) returns (i: nat)
    requires Covers(times, WIDEST_GAP, periodEnd)
    ensures i < |times| && InWindow(times[i], periodEnd)
    ensures forall j :: 0 <= j < i ==> !InWindow(times[j], periodEnd)
    decreases |times|
  {
    if periodEnd - WINDOW_END_DAYS * DAY <= times[0] {
      i := 0;
    } else {
      assert times[1] <= times[0] + WIDEST_GAP;
      var later := SomeScanHitsTheWindow(times[1..], periodEnd);
      i := later + 1;
      assert forall j :: 0 < j < i ==> times[j] == times[1..][j - 1];
    }
  }

  function Times(scans: seq<Scan>): seq<int> {
    seq(|scans|, i requires 0 <= i < |scans| => scans[i].now)
  }

  lemma FirstDecides(scans: seq<Scan>, i: nat, periodEnd: int)
    requires i < |scans| && InWindow(scans[i].now, periodEnd) && scans[i].queued && scans[i].marked
    requires forall j :: 0 <= j < i ==> !InWindow(scans[j].now, periodEnd)
    ensures Sending(scans, periodEnd) == {i}
  {
    assert !MarkedBefore(scans, i, periodEnd);
    forall k | i < k < |scans| ensures MarkedBefore(scans, k, periodEnd) {
    }
  }

  /** With scans at most two days apart (a daily schedule that may skip a day), exactly
      one reminder is issued for a subscription that stays eligible, provided the first
      scan to reach it succeeds in both its calls. */
  lemma ExactlyOneReminder(row: Row, scans: seq<Scan>)
    requires Eligible(row) && Covers(Times(scans), WIDEST_GAP, row.periodEnd)
    requires forall i :: 0 <= i < |scans| && InWindow(scans[i].now, row.periodEnd)
                         && (forall j :: 0 <= j < i ==> !InWindow(scans[j].now, row.periodEnd)) ==>
               scans[i].queued && scans[i].marked
    ensures Issued(row, Scans(scans)) == 1
  {
    var i := SomeScanHitsTheWindow(Times(scans), row.periodEnd);
    assert forall j :: 0 <= j < |scans| ==> Times(scans)[j] == scans[j].now;
    FirstDecides(scans, i, row.periodEnd);
    IssuedAreTheSending(row, scans);
  }

  /** That is the widest gap which never misses a subscription. */
  lemma GapIsSafeIff(gap: nat, periodEnd: int)
    ensures (forall times: seq<int> :: Covers(times, gap, periodEnd) ==>
               exists i :: 0 <= i < |times| && InWindow(times[i], periodEnd))
            <==> gap <= WIDEST_GAP
  {
    if gap <= WIDEST_GAP {
      forall times: seq<int> | Covers(times, gap, periodEnd)
        ensures exists i :: 0 <= i < |times| && InWindow(times[i], periodEnd)
      {
        assert Covers(times, WIDEST_GAP, periodEnd);
        var i := SomeScanHitsTheWindow(times, periodEnd);
      }
    } else {
      var before := periodEnd - WINDOW_END_DAYS * DAY - 1;
      var times := [before, before + gap];
      assert Covers(times, gap, periodEnd);
      assert forall i :: 0 <= i < |times| ==> !InWindow(times[i], periodEnd);
    }
  }

  // ── The service itself ────────────────────────────────────────────────

  datatype Product = Directory | LeadFinder

  datatype Mail = Mail(product: Product, row: nat, periodEnd: int)

  /** The first `n` rows after a scan. */
  function MarkAll(rows: seq<Row>, now: int, marks: nat -> bool, n: nat): seq<Row>
    requires n <= |rows|
  {
    seq(|rows|, i requires 0 <= i < |rows| => if i < n then Mark(rows[i], now, marks(i)) else rows[i])
  }

  lemma MarkAllStep(rows: seq<Row>, now: int, marks: nat -> bool, n: nat)
    requires n < |rows|
    ensures MarkAll(rows, now, marks, n + 1) == MarkAll(rows, now, marks, n)[n := Mark(rows[n], now, marks(n))]
  {
  }

  /** The mails of the first `n` rows that made it into the queue, in order. */
  function MailsOf(product: Product, rows: seq<Row>, now: int, queues: nat -> bool, n: nat): seq<Mail>
    requires n <= |rows|
  {
    if n == 0 then []
    else MailsOf(product, rows, now, queues, n - 1)
         + if Reaches(rows[n - 1], now) && queues(n - 1) then [Mail(product, n - 1, rows[n - 1].periodEnd)] else []
  }

  function MarkedAmong(rows: seq<Row>, now: int, marks: nat -> bool, n: nat): nat
    requires n <= |rows|
  {
    if n == 0 then 0
    else MarkedAmong(rows, now, marks, n - 1) + if Reaches(rows[n - 1], now) && marks(n - 1) then 1 else 0
  }

  /** Both tables and the mail queue. */
  datatype Store = Store(directory: seq<Row>, leadFinder: seq<Row>, queue: seq<Mail>)

  /** One run of the scan with what the queue and the database answer for each row. */
  datatype DailyScan = DailyScan(
    now: int, queues: nat -> bool, marks: nat -> bool, tierQueues: nat -> bool, tierMarks: nat -> bool)

  function ScanAll(s: Store, scan: DailyScan): Store {
    Store(MarkAll(s.directory, scan.now, scan.marks, |s.directory|),
          MarkAll(s.leadFinder, scan.now, scan.tierMarks, |s.leadFinder|),
          s.queue + MailsOf(Directory, s.directory, scan.now, scan.queues, |s.directory|)
                  + MailsOf(LeadFinder, s.leadFinder, scan.now, scan.tierQueues, |s.leadFinder|))
  }

  class RenewalReminderService {
    var directory: seq<Row>
    var leadFinder: seq<Row>
    var queue: seq<Mail>

    constructor (directory: seq<Row>, leadFinder: seq<Row>)
      ensures this.directory == directory && this.leadFinder == leadFinder && queue == []
    {
      this.directory, this.leadFinder, queue := directory, leadFinder, [];
    }

    /** `EmailService.enqueue`: a failure is logged and the caller told nothing. */
    method SendRenewalReminder(mail: Mail, accepted: bool)
      modifies this`queue
      ensures queue == old(queue) + if accepted then [mail] else []
    {
      if accepted { queue := queue + [mail]; }
    }

    /** The directory loop. The catch block is only ever entered by a mark that fails. */
    method RemindDirectory(now: int, queues: nat -> bool, marks: nat -> bool) returns (sent: nat)
      modifies this`directory, this`queue
      ensures directory == MarkAll(old(directory), now, marks, |old(directory)|)
      ensures queue == old(queue) + MailsOf(Directory, old(directory), now, queues, |old(directory)|)
      ensures sent == MarkedAmong(old(directory), now, marks, |old(directory)|)
    {
      ghost var rows, before := directory, queue;
      sent := 0;
      for i := 0 to |directory|
        invariant |directory| == |rows| && directory == MarkAll(rows, now, marks, i)
        invariant queue == before + MailsOf(Directory, rows, now, queues, i)
        invariant sent == MarkedAmong(rows, now, marks, i)
      {
        MarkAllStep(rows, now, marks, i);
        var row := directory[i];
        if Due(row, now) && row.remindedFor != Some(row.periodEnd) {
          SendRenewalReminder(Mail(Directory, i, row.periodEnd), queues(i));
          if marks(i) {
            directory := directory[i := row.(remindedFor := Some(row.periodEnd))];
            sent := sent + 1;
          }
        }
      }
    }

    method RemindLeadFinder(now: int, queues: nat -> bool, marks: nat -> bool) returns (sent: nat)
      modifies this`leadFinder, this`queue
      ensures leadFinder == MarkAll(old(leadFinder), now, marks, |old(leadFinder)|)
      ensures queue == old(queue) + MailsOf(LeadFinder, old(leadFinder), now, queues, |old(leadFinder)|)
      ensures sent == MarkedAmong(old(leadFinder), now, marks, |old(leadFinder)|)
    {
      ghost var rows, before := leadFinder, queue;
      sent := 0;
      for i := 0 to |leadFinder|
        invariant |leadFinder| == |rows| && leadFinder == MarkAll(rows, now, marks, i)
        invariant queue == before + MailsOf(LeadFinder, rows, now, queues, i)
        invariant sent == MarkedAmong(rows, now, marks, i)
      {
        MarkAllStep(rows, now, marks, i);
        var row := leadFinder[i];
        if Due(row, now) && row.remindedFor != Some(row.periodEnd) {
          SendRenewalReminder(Mail(LeadFinder, i, row.periodEnd), queues(i));
          if marks(i) {
            leadFinder := leadFinder[i := row.(remindedFor := Some(row.periodEnd))];
            sent := sent + 1;
          }
        }
      }
    }

    function Snapshot(): Store
      reads this
    {
      Store(directory, leadFinder, queue)
    }

    /** `sent` counts marks, not mails. */
    method SendDueReminders(scan: DailyScan) returns (sent: nat)
      modifies this
      ensures Snapshot() == ScanAll(old(Snapshot()), scan)
      ensures sent == MarkedAmong(old(directory), scan.now, scan.marks, |old(directory)|)
                    + MarkedAmong(old(leadFinder), scan.now, scan.tierMarks, |old(leadFinder)|)
    {
      sent := RemindDirectory(scan.now, scan.queues, scan.marks);
      var more := RemindLeadFinder(scan.now, scan.tierQueues, scan.tierMarks);
      sent := sent + more;
    }
  }
}
