/**
 The unique index on document numbers, over runs. On series left as they are created it never refuses a
 document, as long as the run stays within a hundred financial years.
 */
module NumberGuard {
  import opened Outcomes
  import opened Querysets
  import opened Pricing
  import opened Documents
  import opened Numbering
  import opened Books
  import opened BooksLaws
  import W = BooksWalk

  predicate InCentury(year: int, first: int) { first <= year < first + 100 }

  /** A number as a series left at its defaults prints it, of a value already given out. */
  predicate ByDefault(b: Ledgers, key: SeriesKey, number: string, year: int, value: nat, first: int) {
    InCentury(year, first) && number == FormatNumber(NewSeries(key, year), value) && value <= Current(b.series, key, year)
  }

  ghost predicate Defaults(b: Ledgers, first: int) {
    && AsCreated(b)
    && (forall i :: 0 <= i < |b.invoices| ==>
          ByDefault(b, INVOICE_SERIES, b.invoices[i].number, b.invoices[i].year, b.invoices[i].value, first))
    && (forall n :: 0 <= n < |b.notes| ==>
          ByDefault(b, CREDIT_NOTE_SERIES, b.notes[n].number, b.notes[n].year, b.notes[n].value, first))
  }

  /** The next number of a series at its defaults. */
  lemma AllocatedByDefault(b: Ledgers, key: SeriesKey, on: Day, first: int)
    requires Defaults(b, first)
    ensures
      var r := AllocateNumber(b.series, key, on);
      && r.Done? && r.value.year == FinancialYearFor(on) && r.value.value == Current(b.series, key, FinancialYearFor(on)) + 1
      && r.value.number == FormatNumber(NewSeries(key, FinancialYearFor(on)), r.value.value)
  {
  }

  lemma OneYearPerCentury(y: int, z: int, first: int)
    requires InCentury(y, first) && InCentury(z, first) && y % 100 == z % 100
    ensures y == z
  {
    assert y - z == 100 * (y / 100 - z / 100);
  }

  /** It has never been printed before. */
  lemma NumberIsNew(b: Ledgers, key: SeriesKey, on: Day, first: int, number: string, year: int, value: nat)
    requires Defaults(b, first) && InCentury(FinancialYearFor(on), first) && ByDefault(b, key, number, year, value, first)
    ensures number != AllocateNumber(b.series, key, on).value.number
  {
    AllocatedByDefault(b, key, on, first);
    var now := FinancialYearFor(on);
    DefaultNumbersAreDistinct(key, year, value, now, Current(b.series, key, now) + 1);
    if year % 100 == now % 100 { OneYearPerCentury(year, now, first); }
  }

  lemma NumbersAreFree(b: Ledgers, on: Day, first: int)
    requires Defaults(b, first) && InCentury(FinancialYearFor(on), first)
    ensures AllocateNumber(b.series, INVOICE_SERIES, on).Done? && AllocateNumber(b.series, CREDIT_NOTE_SERIES, on).Done?
    ensures IndexWhere(InvoiceNumbered(AllocateNumber(b.series, INVOICE_SERIES, on).value.number), b.invoices) < 0
    ensures IndexWhere(NoteNumbered(AllocateNumber(b.series, CREDIT_NOTE_SERIES, on).value.number), b.notes) < 0
  {
    AllocatedByDefault(b, INVOICE_SERIES, on, first);
    AllocatedByDefault(b, CREDIT_NOTE_SERIES, on, first);
    var number, other := AllocateNumber(b.series, INVOICE_SERIES, on).value.number, AllocateNumber(b.series, CREDIT_NOTE_SERIES, on).value.number;
    forall i | 0 <= i < |b.invoices| ensures !InvoiceNumbered(number)(b.invoices[i]) {
      NumberIsNew(b, INVOICE_SERIES, on, first, b.invoices[i].number, b.invoices[i].year, b.invoices[i].value);
    }
    forall n | 0 <= n < |b.notes| ensures !NoteNumbered(other)(b.notes[n]) {
      NumberIsNew(b, CREDIT_NOTE_SERIES, on, first, b.notes[n].number, b.notes[n].year, b.notes[n].value);
    }
  }

  // ------------------------------------------------------------------ every document carries the year of its own day

  /** A committed document was numbered in the financial year of its own day, and prints that year and its value. */
  ghost predicate Dated(key: SeriesKey, on: Day, year: int, value: nat, number: string) {
    InYear(on, year) && Printed(number, key, year, value)
  }

  ghost predicate AllDated(b: Ledgers) {
    && (forall i :: 0 <= i < |b.invoices| ==>
          Dated(INVOICE_SERIES, b.invoices[i].on, b.invoices[i].year, b.invoices[i].value, b.invoices[i].number))
    && (forall n :: 0 <= n < |b.notes| ==>
          Dated(CREDIT_NOTE_SERIES, b.notes[n].on, b.notes[n].year, b.notes[n].value, b.notes[n].number))
  }

  /** No series was ever renamed, repadded or switched off. */
  ghost predicate AsCreated(b: Ledgers) {
    forall key, year :: (key, year) in b.series ==>
      && b.series[(key, year)].prefix == NewSeries(key, year).prefix && b.series[(key, year)].padding == NewSeries(key, year).padding
      && b.series[(key, year)].active
  }

  lemma AllocatesDated(b: Ledgers, b': Ledgers, key: SeriesKey, on: Day)
    requires AsCreated(b) && AllocateNumber(b.series, key, on).Done? && b'.series == AllocateNumber(b.series, key, on).value.table
    ensures var a := AllocateNumber(b.series, key, on).value; Dated(key, on, a.year, a.value, a.number)
    ensures AsCreated(b')
  {
    var a := AllocateNumber(b.series, key, on).value;
    AllocatesInItsYear(b.series, key, on, a.year);
    DefaultNumberIsPrinted(key, a.year, a.value);
  }

  lemma IssueIsDated(b: Ledgers, sale: Sale, intraState: bool, on: Day, uuid: Option<Uuid>)
    requires AsCreated(b) && AllDated(b)
    ensures var r := IssueInvoice(b, sale, intraState, on, uuid); r.Done? ==> AsCreated(r.value) && AllDated(r.value)
  {
    var r := IssueInvoice(b, sale, intraState, on, uuid);
    if r.Done? && r.value != b {
      IssueAddsInvoice(b, sale, intraState, on, uuid);
      AllocatesDated(b, r.value, INVOICE_SERIES, on);
    }
  }

  lemma CreditIsDated(b: Ledgers, i: nat, requests: seq<Request>, reason: string, on: Day, uuid: Option<Uuid>)
    requires AsCreated(b) && AllDated(b) && i < |b.invoices| && Positive(requests)
    ensures var r := IssueCreditNote(b, i, requests, reason, on, uuid); r.Done? ==> AsCreated(r.value) && AllDated(r.value)
  {
    var r := IssueCreditNote(b, i, requests, reason, on, uuid);
    if r.Done? && r.value != b {
      CreditAddsNote(b, i, requests, reason, on, uuid);
      AllocatesDated(b, r.value, CREDIT_NOTE_SERIES, on);
    }
  }

  lemma NextIsDated(b: Ledgers, a: Action)
    requires AsCreated(b) && AllDated(b) && Sane(a)
    ensures AsCreated(Next(b, a)) && AllDated(Next(b, a))
  {
    match a
    case Issue(sale, intraState, on, uuid) => IssueIsDated(b, sale, intraState, on, uuid);
    case Credit(i, requests, reason, on, uuid) => if i < |b.invoices| { CreditIsDated(b, i, requests, reason, on, uuid); }
    case _ => NothingNumbered(b, a);
  }

  /** Over every run each invoice and note carries the financial year of its own day and prints it with its value. */
  lemma {:induction false} EveryDocumentIsDated(actions: seq<Action>)
    requires AllSane(actions)
    ensures AsCreated(Run(EmptyBooks, actions)) && AllDated(Run(EmptyBooks, actions))
  {
    if |actions| != 0 {
      EveryDocumentIsDated(actions[..|actions| - 1]);
      NextIsDated(Run(EmptyBooks, actions[..|actions| - 1]), actions[|actions| - 1]);
    }
  }

  /** Two invoices of a run, in the order of their days, are numbered in one series exactly when no 1 April lies between those days. */
  lemma InvoicesShareASeries(actions: seq<Action>, i: nat, j: nat)
    requires AllSane(actions)
    requires var b := Run(EmptyBooks, actions);
             && i < |b.invoices| && j < |b.invoices|
             && 12 * b.invoices[i].on.year + b.invoices[i].on.month <= 12 * b.invoices[j].on.year + b.invoices[j].on.month
    ensures var b := Run(EmptyBooks, actions);
            b.invoices[i].year == b.invoices[j].year <==> !exists april :: AprilBetween(b.invoices[i].on, b.invoices[j].on, april)
  {
    var b := Run(EmptyBooks, actions);
    EveryDocumentIsDated(actions);
    YearsTurnInApril(b.invoices[i].on, b.invoices[i].year, b.invoices[j].on, b.invoices[j].year);
  }

  // ------------------------------------------------------------------ over runs

  predicate Within(a: Action, first: int) {
    (a.Issue? ==> InCentury(FinancialYearFor(a.on), first)) && (a.Credit? ==> InCentury(FinancialYearFor(a.on), first))
  }

  /** Counters only move up, so what was printed stays printed by default. */
  lemma AllocatingKeepsDefaults(b: Ledgers, b': Ledgers, key: SeriesKey, on: Day, first: int)
    requires Defaults(b, first) && b'.series == AllocateNumber(b.series, key, on).value.table && AllocateNumber(b.series, key, on).Done?
    ensures AsCreated(b')
    ensures forall k, number, year, value :: ByDefault(b, k, number, year, value, first) ==> ByDefault(b', k, number, year, value, first)
    ensures Current(b'.series, key, FinancialYearFor(on)) == AllocateNumber(b.series, key, on).value.value
  {
    forall k, year ensures Current(b.series, k, year) <= Current(b'.series, k, year) { AllocationAdvancesOneSeries(b.series, key, on, k, year); }
  }

  lemma IssueKeepsDefaults(b: Ledgers, sale: Sale, intraState: bool, on: Day, uuid: Option<Uuid>, first: int)
    requires Defaults(b, first) && InCentury(FinancialYearFor(on), first)
    ensures var r := IssueInvoice(b, sale, intraState, on, uuid); r.Done? ==> Defaults(r.value, first)
  {
    var r := IssueInvoice(b, sale, intraState, on, uuid);
    if r.Done? && r.value != b {
      IssueAddsInvoice(b, sale, intraState, on, uuid);
      AllocatedByDefault(b, INVOICE_SERIES, on, first);
      AllocatingKeepsDefaults(b, r.value, INVOICE_SERIES, on, first);
    }
  }

  /** A new note under the number its series gave it. */
  lemma NewNoteKeepsDefaults(b: Ledgers, b': Ledgers, i: nat, on: Day, first: int)
    requires Defaults(b, first) && InCentury(FinancialYearFor(on), first) && AddsNote(b, b', i)
    requires var r := AllocateNumber(b.series, CREDIT_NOTE_SERIES, on);
             && r.Done? && b'.series == r.value.table
             && b'.notes[|b.notes|].number == r.value.number && b'.notes[|b.notes|].year == r.value.year && b'.notes[|b.notes|].value == r.value.value
    ensures Defaults(b', first)
  {
    AllocatedByDefault(b, CREDIT_NOTE_SERIES, on, first);
    AllocatingKeepsDefaults(b, b', CREDIT_NOTE_SERIES, on, first);
  }

  lemma CreditKeepsDefaults(b: Ledgers, i: nat, requests: seq<Request>, reason: string, on: Day, uuid: Option<Uuid>, first: int)
    requires Defaults(b, first) && InCentury(FinancialYearFor(on), first) && i < |b.invoices| && Positive(requests)
    ensures var r := IssueCreditNote(b, i, requests, reason, on, uuid); r.Done? ==> Defaults(r.value, first)
  {
    var r := IssueCreditNote(b, i, requests, reason, on, uuid);
    if r.Done? && r.value != b {
      CreditAddsNote(b, i, requests, reason, on, uuid);
      NewNoteKeepsDefaults(b, r.value, i, on, first);
    }
  }

  /** Every other service leaves counters and numbers alone. */
  lemma NothingNumbered(b: Ledgers, a: Action)
    requires Sane(a) && !a.Issue? && !a.Credit?
    ensures var b' := Next(b, a); SameNumbering(b, b')
  {
  }

  ghost predicate SameNumbering(b: Ledgers, b': Ledgers) {
    && b'.series == b.series && b'.notes == b.notes && |b'.invoices| == |b.invoices|
    && forall i :: 0 <= i < |b.invoices| ==>
         && b'.invoices[i].number == b.invoices[i].number && b'.invoices[i].year == b.invoices[i].year
         && b'.invoices[i].value == b.invoices[i].value && b'.invoices[i].on == b.invoices[i].on
  }

  lemma SameNumbersByDefault(b: Ledgers, b': Ledgers, first: int)
    requires Defaults(b, first) && SameNumbering(b, b')
    ensures Defaults(b', first)
  {
    forall i | 0 <= i < |b'.invoices| ensures ByDefault(b', INVOICE_SERIES, b'.invoices[i].number, b'.invoices[i].year, b'.invoices[i].value, first) {
      assert ByDefault(b, INVOICE_SERIES, b.invoices[i].number, b.invoices[i].year, b.invoices[i].value, first);
    }
    forall n | 0 <= n < |b'.notes| ensures ByDefault(b', CREDIT_NOTE_SERIES, b'.notes[n].number, b'.notes[n].year, b'.notes[n].value, first) {
      assert ByDefault(b, CREDIT_NOTE_SERIES, b.notes[n].number, b.notes[n].year, b.notes[n].value, first);
    }
  }

  lemma NextKeepsDefaults(b: Ledgers, a: Action, first: int)
    requires Defaults(b, first) && Sane(a) && Within(a, first)
    ensures Defaults(Next(b, a), first)
  {
    match a
    case Issue(sale, intraState, on, uuid) => IssueKeepsDefaults(b, sale, intraState, on, uuid, first);
    case Credit(i, requests, reason, on, uuid) => if i < |b.invoices| { CreditKeepsDefaults(b, i, requests, reason, on, uuid, first); }
    case _ =>
      NothingNumbered(b, a);
      SameNumbersByDefault(b, Next(b, a), first);
  }

  /** Over every run within one century of financial years, both guards stand open: every number allocated is new. */
  lemma {:induction false} NumberGuardNeverFires(actions: seq<Action>, on: Day, first: int)
    requires AllSane(actions) && (forall i :: 0 <= i < |actions| ==> Within(actions[i], first)) && InCentury(FinancialYearFor(on), first)
    ensures Defaults(Run(EmptyBooks, actions), first)
    ensures
      var b := Run(EmptyBooks, actions);
      && AllocateNumber(b.series, INVOICE_SERIES, on).Done? && AllocateNumber(b.series, CREDIT_NOTE_SERIES, on).Done?
      && IndexWhere(InvoiceNumbered(AllocateNumber(b.series, INVOICE_SERIES, on).value.number), b.invoices) < 0
      && IndexWhere(NoteNumbered(AllocateNumber(b.series, CREDIT_NOTE_SERIES, on).value.number), b.notes) < 0
  {
    if |actions| != 0 {
      NumberGuardNeverFires(actions[..|actions| - 1], on, first);
      NextKeepsDefaults(Run(EmptyBooks, actions[..|actions| - 1]), actions[|actions| - 1], first);
    }
    NumbersAreFree(Run(EmptyBooks, actions), on, first);
  }

  /** So over such a run an invoice and a note are issued exactly when what they state is in order; numbering never stands in the way. */
  lemma DocumentsOverRuns(actions: seq<Action>, first: int, on: Day, uuid: Option<Uuid>, sale: Sale, intraState: bool, i: nat, requests: seq<Request>, reason: string)
    requires AllSane(actions) && (forall i :: 0 <= i < |actions| ==> Within(actions[i], first)) && InCentury(FinancialYearFor(on), first)
    requires AllPriced(sale.lines) && i < |Run(EmptyBooks, actions).invoices| && Positive(requests)
    ensures
      var b := Run(EmptyBooks, actions);
      && (var r := IssueInvoice(b, sale, intraState, on, uuid); r.Done? && r.value != b <==> Invoiceable(b, sale, uuid))
      && (var r := IssueCreditNote(b, i, requests, reason, on, uuid);
          r.Done? && r.value != b <==> Creditable(b, i, requests, reason, uuid, WorthOf(b, i, requests)))
  {
    NumberGuardNeverFires(actions, on, first);
    IssuesExactlyWhen(Run(EmptyBooks, actions), sale, intraState, on, uuid);
    CreditsExactlyWhen(Run(EmptyBooks, actions), i, requests, reason, on, uuid);
  }

  /** So over such a run a dispatched order not yet invoiced can be, exactly when it is worth at least half a rupee. */
  lemma InvoiceableOverRuns(actions: seq<Action>, first: int, sale: Sale, intraState: bool, on: Day)
    requires AllSane(actions) && (forall i :: 0 <= i < |actions| ==> Within(actions[i], first)) && InCentury(FinancialYearFor(on), first)
    requires AllPriced(sale.lines) && sale.goodsOut && |sale.lines| > 0
    requires IndexWhere(InvoiceOf(sale.order), Run(EmptyBooks, actions).invoices) < 0
    ensures IssueInvoice(Run(EmptyBooks, actions), sale, intraState, on, None).Done? <==> TotalsOf(sale.lines).total >= 50
  {
    NumberGuardNeverFires(actions, on, first);
    InvoiceableExactlyWhen(Run(EmptyBooks, actions), sale, intraState, on, None);
  }

  /** And a note for the whole of an uncancelled invoice is issued exactly when nothing was credited against it before. */
  lemma FullCreditOverRuns(actions: seq<Action>, first: int, i: nat, requests: seq<Request>, lines: seq<OrderLine>, reason: string, on: Day)
    requires AllSane(actions) && (forall i :: 0 <= i < |actions| ==> Within(actions[i], first)) && InCentury(FinancialYearFor(on), first)
    requires var b := Run(EmptyBooks, actions);
             && i < |b.invoices| && b.invoices[i].status == ISSUED && W.Documented(b.invoices[i], lines)
             && CreditsEverything(i, requests, lines, b.invoices[i].intraState)
    requires Positive(requests) && reason != ""
    ensures var b := Run(EmptyBooks, actions);
            IssueCreditNote(b, i, requests, reason, on, None).Done? <==> CreditedTotal(b.notes, i) == 0
  {
    NumberGuardNeverFires(actions, on, first);
    EveryRunIsSound(actions);
    W.FullCreditNote(Run(EmptyBooks, actions), i, requests, lines, reason, on, None, on.number);
  }
}
