/** The mails in the queue, row by row, over any history of the two tables: scans of the
    service, renewals, cancellations and new subscriptions
    (src/renewal-reminder/renewal-reminder.service.ts:36-112). */
module ReminderMails {
  import opened Prelude
  import opened RenewalReminder

  /** What happens to the tables, in order. A `Changed` row is updated by somebody else. */
  datatype Happening =
    | Daily(scan: DailyScan)
    | Changed(product: Product, row: nat, event: Event)
    | Subscribed(product: Product, added: Row)

  function Rows(s: Store, product: Product): seq<Row> {
    if product == Directory then s.directory else s.leadFinder
  }

  function PutRows(s: Store, product: Product, rows: seq<Row>): Store {
    if product == Directory then s.(directory := rows) else s.(leadFinder := rows)
  }

  function Apply(s: Store, h: Happening): Store {
    match h
    case Daily(scan) => ScanAll(s, scan)
    case Changed(product, row, event) =>
      if row < |Rows(s, product)| && !event.Scanned? then
        PutRows(s, product, Rows(s, product)[row := Step(Rows(s, product)[row], event)])
      else s
    case Subscribed(product, added) => PutRows(s, product, Rows(s, product) + [added])
  }

  function Run(s: Store, history: seq<Happening>): Store {
    if history == [] then s else Apply(Run(s, history[..|history| - 1]), history[|history| - 1])
  }

  /** What one happening is for one row: a scan reaches every row with its own answers. */
  function EventOf(h: Happening, product: Product, i: nat): seq<Event> {
    match h
    case Daily(scan) =>
      if product == Directory then [Scanned(Scan(scan.now, scan.queues(i), scan.marks(i)))]
      else [Scanned(Scan(scan.now, scan.tierQueues(i), scan.tierMarks(i)))]
    case Changed(p, row, event) => if p == product && row == i && !event.Scanned? then [event] else []
    case Subscribed(_, _) => []
  }

  function EventsOf(history: seq<Happening>, product: Product, i: nat): seq<Event> {
    if history == [] then []
    else EventsOf(history[..|history| - 1], product, i) + EventOf(history[|history| - 1], product, i)
  }

  /** The period ends of the mails about one row, in the order of the queue. */
  function PeriodsMailed(mails: seq<Mail>, product: Product, i: nat): seq<int> {
    if mails == [] then []
    else
      var last := mails[|mails| - 1];
      PeriodsMailed(mails[..|mails| - 1], product, i)
      + if last.product == product && last.row == i then [last.periodEnd] else []
  }

  lemma {:induction false} MailedAppends(a: seq<Mail>, b: seq<Mail>, product: Product, i: nat)
    ensures PeriodsMailed(a + b, product, i) == PeriodsMailed(a, product, i) + PeriodsMailed(b, product, i)
  {
    if b == [] {
      assert a + b == a;
    } else {
      var init := b[..|b| - 1];
      MailedAppends(a, init, product, i);
      assert (a + b)[..|a + b| - 1] == a + init;
    }
  }

  /** The row is between six and eight days before its period end and has not been
      reminded of it. */
  predicate Wanted(row: Row, now: int) {
    && row.renewing && !row.cancelAtPeriodEnd
    && now + 518_400_000 <= row.periodEnd && row.periodEnd <= now + 691_200_000
    && row.remindedFor != Some(row.periodEnd)
  }

  lemma WantedIsReached(row: Row, now: int)
    ensures Wanted(row, now) <==> Reaches(row, now)
  {
  }

  lemma OneMailed(mail: Mail, product: Product, i: nat)
    ensures PeriodsMailed([mail], product, i)
         == if mail.product == product && mail.row == i then [mail.periodEnd] else []
  {
    assert [mail][..0] == [];
  }

  /** A scan queues one mail, with the row's period end, for each row of its product that
      wants one and whose mail the queue takes, and no other mail. */
  lemma {:induction false} OneMailPerWantedRow(
    product: Product, rows: seq<Row>, now: int, queues: nat -> bool, n: nat, other: Product, i: nat)
    requires n <= |rows|
    ensures PeriodsMailed(MailsOf(product, rows, now, queues, n), other, i)
         == if other == product && i < n && Wanted(rows[i], now) && queues(i) then [rows[i].periodEnd] else []
  {
    if n > 0 {
      OneMailPerWantedRow(product, rows, now, queues, n - 1, other, i);
      var mails, mail := MailsOf(product, rows, now, queues, n - 1), Mail(product, n - 1, rows[n - 1].periodEnd);
      WantedIsReached(rows[n - 1], now);
      if Wanted(rows[n - 1], now) && queues(n - 1) {
        MailedAppends(mails, [mail], other, i);
        OneMailed(mail, other, i);
      } else {
        assert mails + [] == mails;
      }
    }
  }

  /** The mail a scan queues about one row, if it does. */
  function ScanMail(s: Store, scan: DailyScan, product: Product, i: nat): seq<int> {
    if i < |Rows(s, product)| && Wanted(Rows(s, product)[i], scan.now)
       && (if product == Directory then scan.queues(i) else scan.tierQueues(i))
    then [Rows(s, product)[i].periodEnd] else []
  }

  lemma MailedAppendsTwo(a: seq<Mail>, b: seq<Mail>, c: seq<Mail>, product: Product, i: nat)
    ensures PeriodsMailed(a + b + c, product, i)
         == PeriodsMailed(a, product, i) + (PeriodsMailed(b, product, i) + PeriodsMailed(c, product, i))
  {
    MailedAppends(a, b, product, i);
    MailedAppends(a + b, c, product, i);
    Associates(PeriodsMailed(a, product, i), PeriodsMailed(b, product, i), PeriodsMailed(c, product, i));
  }

  /** A row's mail comes from the loop of its own product. */
  lemma BothLoops(s: Store, scan: DailyScan, product: Product, i: nat)
    ensures PeriodsMailed(MailsOf(Directory, s.directory, scan.now, scan.queues, |s.directory|), product, i)
          + PeriodsMailed(MailsOf(LeadFinder, s.leadFinder, scan.now, scan.tierQueues, |s.leadFinder|), product, i)
         == ScanMail(s, scan, product, i)
  {
    OneMailPerWantedRow(Directory, s.directory, scan.now, scan.queues, |s.directory|, product, i);
    OneMailPerWantedRow(LeadFinder, s.leadFinder, scan.now, scan.tierQueues, |s.leadFinder|, product, i);
  }

  lemma ScanMails(s: Store, scan: DailyScan, product: Product, i: nat)
    ensures PeriodsMailed(ScanAll(s, scan).queue, product, i)
         == PeriodsMailed(s.queue, product, i) + ScanMail(s, scan, product, i)
  {
    var d := MailsOf(Directory, s.directory, scan.now, scan.queues, |s.directory|);
    var l := MailsOf(LeadFinder, s.leadFinder, scan.now, scan.tierQueues, |s.leadFinder|);
    MailedAppendsTwo(s.queue, d, l, product, i);
    BothLoops(s, scan, product, i);
  }

  /** The period ends for which `Issued` counts a reminder. */
  function PeriodsIssued(row: Row, events: seq<Event>): (periods: seq<int>)
    ensures |periods| == Issued(row, events)
  {
    if events == [] then []
    else
      var earlier, last := events[..|events| - 1], events[|events| - 1];
      PeriodsIssued(row, earlier) + if Issues(After(row, earlier), last) then [After(row, earlier).periodEnd] else []
  }

  /** The mails of one happening for a row. */
  function Mailed(row: Row, seen: seq<Event>): seq<int> {
    if seen != [] && Issues(row, seen[0]) then [row.periodEnd] else []
  }

  lemma ScanForRow(s: Store, scan: DailyScan, product: Product, i: nat)
    requires i < |Rows(s, product)|
    ensures var s', seen := ScanAll(s, scan), EventOf(Daily(scan), product, i);
      && i < |Rows(s', product)| && Rows(s', product)[i] == Step(Rows(s, product)[i], seen[0])
      && ScanMail(s, scan, product, i) == Mailed(Rows(s, product)[i], seen)
  {
    WantedIsReached(Rows(s, product)[i], scan.now);
  }

  /** One happening for one row: the row takes its step, and its mails are what it issues. */
  lemma HappeningForRow(s: Store, h: Happening, product: Product, i: nat)
    requires i < |Rows(s, product)|
    ensures var s', seen, current := Apply(s, h), EventOf(h, product, i), Rows(s, product)[i];
      && i < |Rows(s', product)| && Rows(s', product)[i] == (if seen == [] then current else Step(current, seen[0]))
      && PeriodsMailed(s'.queue, product, i) == PeriodsMailed(s.queue, product, i) + Mailed(current, seen)
  {
    if h.Daily? {
      ScanForRow(s, h.scan, product, i);
      ScanMails(s, h.scan, product, i);
    } else {
      assert Mailed(Rows(s, product)[i], EventOf(h, product, i)) == [];
      assert PeriodsMailed(s.queue, product, i) + [] == PeriodsMailed(s.queue, product, i);
    }
  }

  /** The row's own events take the same step. */
  lemma EventsForRow(row: Row, events: seq<Event>, seen: seq<Event>)
    requires |seen| <= 1
    ensures After(row, events + seen) == if seen == [] then After(row, events) else Step(After(row, events), seen[0])
    ensures PeriodsIssued(row, events + seen) == PeriodsIssued(row, events) + Mailed(After(row, events), seen)
  {
    var more := events + seen;
    if seen == [] {
      assert more == events && PeriodsIssued(row, events) + [] == PeriodsIssued(row, events);
    } else {
      assert more[..|more| - 1] == events && more[|more| - 1] == seen[0];
    }
  }

  /** Over any history of both tables, the mails the service queues about a row are the
      reminders of that row's own events, one by one and with their period ends; so what
      is proved of `Issued` holds of the queue. */
  lemma {:induction false} MailsAreTheIssued(s: Store, history: seq<Happening>, product: Product, i: nat)
    requires i < |Rows(s, product)|
    ensures var t, events := Run(s, history), EventsOf(history, product, i);
      && i < |Rows(t, product)| && Rows(t, product)[i] == After(Rows(s, product)[i], events)
      && PeriodsMailed(t.queue, product, i)
           == PeriodsMailed(s.queue, product, i) + PeriodsIssued(Rows(s, product)[i], events)
  {
    var row, before := Rows(s, product)[i], PeriodsMailed(s.queue, product, i);
    if history == [] {
      assert before + [] == before;
    } else {
      var init, last := history[..|history| - 1], history[|history| - 1];
      var events := EventsOf(init, product, i);
      MailsAreTheIssued(s, init, product, i);
      HappeningForRow(Run(s, init), last, product, i);
      EventsForRow(row, events, EventOf(last, product, i));
      Associates(before, PeriodsIssued(row, events), Mailed(After(row, events), EventOf(last, product, i)));
    }
  }

  lemma Associates(a: seq<int>, b: seq<int>, c: seq<int>)
    ensures a + b + c == a + (b + c)
  {
  }

  /** The mails queued about a row number the reminders issued for it. */
  lemma MailCountIsIssued(s: Store, history: seq<Happening>, product: Product, i: nat)
    requires i < |Rows(s, product)| && s.queue == []
    ensures |PeriodsMailed(Run(s, history).queue, product, i)|
         == Issued(Rows(s, product)[i], EventsOf(history, product, i))
  {
    MailsAreTheIssued(s, history, product, i);
  }

  /** No mail is about a row that is not there. */
  lemma {:induction false} NoMailForNobody(s: Store, history: seq<Happening>, product: Product, i: nat)
    requires |Rows(Run(s, history), product)| <= i
    ensures PeriodsMailed(Run(s, history).queue, product, i) == PeriodsMailed(s.queue, product, i)
  {
    if history != [] {
      var init, last := history[..|history| - 1], history[|history| - 1];
      NoMailForNobody(s, init, product, i);
      if last.Daily? {
        ScanMails(Run(s, init), last.scan, product, i);
        assert PeriodsMailed(s.queue, product, i) + [] == PeriodsMailed(s.queue, product, i);
      }
    }
  }

  /** The rows a scan wants to remind and can mark. */
  function Marking(rows: seq<Row>, now: int, marks: nat -> bool, n: nat): set<nat>
    requires n <= |rows|
  {
    set i | 0 <= i < n && Wanted(rows[i], now) && marks(i)
  }

  /** What a scan reports is the number of those rows, whether or not their mails reached
      the queue. */
  lemma {:induction false} SentCountsMarks(rows: seq<Row>, now: int, marks: nat -> bool, n: nat)
    requires n <= |rows|
    ensures MarkedAmong(rows, now, marks, n) == |Marking(rows, now, marks, n)|
  {
    if n > 0 {
      SentCountsMarks(rows, now, marks, n - 1);
      WantedIsReached(rows[n - 1], now);
      var fewer := Marking(rows, now, marks, n - 1);
      if Wanted(rows[n - 1], now) && marks(n - 1) {
        assert Marking(rows, now, marks, n) == fewer + {n - 1};
      } else {
        assert Marking(rows, now, marks, n) == fewer;
      }
    }
  }
}
