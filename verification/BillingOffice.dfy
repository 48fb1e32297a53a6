/** The billing and receivables services as they run: counters bumped, rows inserted, fields set, in place. */
module BillingOffice {
  import opened Outcomes
  import opened Sums
  import opened Querysets
  import opened Pricing
  import opened Documents
  import opened Numbering
  import opened Vocabulary
  import opened Receivables
  import opened Books

  /** Inserting a numbered document does not look at the counters again. */
  lemma CounterIsNotRead(b: Ledgers, series: SeriesTable, sale: Sale, intraState: bool, header: Header, lines: seq<DocumentLine>, a: Allocation, on: Day, uuid: Option<Uuid>)
    ensures InsertInvoice(b.(series := series), sale, intraState, header, lines, a, on, uuid) == InsertInvoice(b, sale, intraState, header, lines, a, on, uuid)
  {
  }

  lemma CounterIsNotReadByNotes(b: Ledgers, series: SeriesTable, i: nat, header: Header, lines: seq<DocumentLine>, a: Allocation, on: Day, uuid: Option<Uuid>)
    requires i < |b.invoices|
    ensures InsertNote(b.(series := series), i, header, lines, a, on, uuid) == InsertNote(b, i, header, lines, a, on, uuid)
  {
  }

  class Office {
    var series: SeriesTable
    var invoices: seq<Invoice>
    var notes: seq<Note>
    var payments: seq<Payment>
    var ledger: seq<Row>

    function Contents(): Ledgers
      reads this
    {
      Ledgers(series, invoices, notes, payments, ledger)
    }

    constructor ()
      ensures Contents() == EmptyBooks
    {
      series, invoices, notes, payments, ledger := map[], [], [], [], [];
    }

    /** Take the next number. The caller's transaction holds the row lock; if it rolls back, so does the counter. */
    method Allocate(key: SeriesKey, on: Day) returns (r: Outcome<Allocation>)
      modifies this`series
      ensures r == AllocateNumber(old(series), key, on) && series == if r.Done? then r.value.table else old(series)
    {
      var year := FinancialYearFor(on);
      var row := if (key, year) in series then series[(key, year)] else NewSeries(key, year);
      if !row.active {
        return Refused(VALIDATION_FAILED);
      }
      row := row.(current := row.current + 1);
      series := series[(key, year) := row];
      r := Done(Allocation(series, year, row.current, FormatNumber(row, row.current)));
    }

    /** The ledger's single append path. */
    method Record(customer: int, kind: Code, amount: int, narration: string, date: int,
                  sourceType: Code, sourceId: Option<int>, salesOrder: Option<int>) returns (ok: bool)
      modifies this`ledger
      ensures var s := RecordEntry(old(ledger), customer, kind, amount, narration, date, sourceType, sourceId, salesOrder);
              ok == s.Done? && ledger == (if s.Done? then s.value else old(ledger)) && (s.Refused? ==> s.code == VALIDATION_FAILED)
    {
      if !CustomerCode(kind) || amount == 0 {
        return false;
      }
      var sign := RequiredSign(kind);
      if (sign == Some(true) && amount < 0) || (sign == Some(false) && amount > 0) {
        return false;
      }
      ledger := ledger + [Row(customer, LedgerWalk.Entry(|ledger| + 1, date, kind, amount, narration, sourceType, sourceId), salesOrder)];
      ok := true;
    }

    method Issue(sale: Sale, intraState: bool, on: Day, uuid: Option<Uuid>) returns (r: Outcome<()>)
      modifies this
      ensures var s := IssueInvoice(old(Contents()), sale, intraState, on, uuid);
              if s.Done? then r == Done(()) && Contents() == s.value else r == Refused(s.code) && Contents() == old(Contents())
    {
      if uuid.Some? && IndexWhere(InvoiceKeyed(uuid.value), invoices) >= 0 {
        return Done(());
      }
      if IndexWhere(InvoiceOf(sale.order), invoices) >= 0 {
        return Done(());
      }
      if !sale.goodsOut || |sale.lines| == 0 {
        return Refused(VALIDATION_FAILED);
      }
      var header, lines := PrepareInvoice(sale.lines, intraState);
      r := PostInvoice(sale, intraState, header, lines, on, uuid);
    }

    method PostInvoice(sale: Sale, intraState: bool, header: Header, lines: seq<DocumentLine>, on: Day, uuid: Option<Uuid>) returns (r: Outcome<()>)
      modifies this
      ensures var s := Books.PostInvoice(old(Contents()), sale, intraState, header, lines, on, uuid);
              if s.Done? then r == Done(()) && Contents() == s.value else r == Refused(s.code) && Contents() == old(Contents())
    {
      var before := series;
      var allocation := Allocate(INVOICE_SERIES, on);
      if allocation.Refused? {
        return Refused(allocation.code);
      }
      CounterIsNotRead(old(Contents()), series, sale, intraState, header, lines, allocation.value, on, uuid);
      r := InsertInvoice(sale, intraState, header, lines, allocation.value, on, uuid);
      if r.Refused? {
        series := before;
      }
    }

    method InsertInvoice(sale: Sale, intraState: bool, header: Header, lines: seq<DocumentLine>, a: Allocation, on: Day, uuid: Option<Uuid>) returns (r: Outcome<()>)
      requires series == a.table
      modifies this`invoices, this`ledger
      ensures var s := Books.InsertInvoice(old(Contents()), sale, intraState, header, lines, a, on, uuid);
              if s.Done? then r == Done(()) && Contents() == s.value else r == Refused(s.code) && Contents() == old(Contents())
    {
      if IndexWhere(InvoiceNumbered(a.number), invoices) >= 0 {
        return Refused(INTEGRITY_ERROR);
      }
      var ok := Record(sale.customer, INVOICE, header.total, "Invoice " + a.number, on.number, INVOICE, Some(|invoices| + 1), Some(sale.order));
      if !ok {
        return Refused(VALIDATION_FAILED);
      }
      invoices := invoices + [Invoice(on, a.year, a.value, a.number, sale.order, uuid, sale.customer, intraState, header, lines, ISSUED, |ledger| - 1, None)];
      r := Done(());
    }

    method Cancel(i: nat, reason: string, today: int) returns (r: Outcome<()>)
      requires i < |invoices|
      modifies this
      ensures var s := CancelInvoice(old(Contents()), i, reason, today);
              if s.Done? then r == Done(()) && Contents() == s.value else r == Refused(s.code) && Contents() == old(Contents())
    {
      if reason == "" {
        return Refused(VALIDATION_FAILED);
      }
      var invoice := invoices[i];
      if invoice.status == CANCELLED {
        return Done(());
      }
      if HasNotes(notes, i) {
        return Refused(VALIDATION_FAILED);
      }
      var ok := Record(invoice.customer, ADJUSTMENT, -invoice.header.total, "Cancellation of invoice " + invoice.number,
                       today, INVOICE, Some(i + 1), Some(invoice.order));
      if !ok {
        return Refused(VALIDATION_FAILED);
      }
      invoices := invoices[i := invoice.(status := CANCELLED, cancelEntry := Some(|ledger| - 1))];
      r := Done(());
    }

    method Credit(i: nat, requests: seq<Request>, reason: string, on: Day, uuid: Option<Uuid>) returns (r: Outcome<()>)
      requires i < |invoices| && Positive(requests)
      modifies this
      ensures var s := IssueCreditNote(old(Contents()), i, requests, reason, on, uuid);
              if s.Done? then r == Done(()) && Contents() == s.value else r == Refused(s.code) && Contents() == old(Contents())
    {
      if reason == "" || |requests| == 0 {
        return Refused(VALIDATION_FAILED);
      }
      if uuid.Some? && IndexWhere(NoteKeyed(uuid.value), notes) >= 0 {
        return Done(());
      }
      var invoice := invoices[i];
      if invoice.status == CANCELLED {
        return Refused(VALIDATION_FAILED);
      }
      var prepared := PrepareCredit(i, requests, invoice.header.gst.igst == 0);
      if prepared.Refused? {
        return Refused(prepared.code);
      }
      var (header, lines) := prepared.value;
      var already := SumCredited(i);
      if already + header.total > invoice.header.total {
        return Refused(VALIDATION_FAILED);
      }
      r := PostNote(i, header, lines, on, uuid);
    }

    /** `credited_total`: the notes already against the invoice. */
    method SumCredited(i: nat) returns (sum: int)
      ensures sum == CreditedTotal(notes, i)
    {
      sum := 0;
      var n := 0;
      while n < |notes|
        invariant 0 <= n <= |notes|
        invariant sum == CreditedTotal(notes[..n], i)
      {
        assert notes[..n + 1][..n] == notes[..n];
        if notes[n].invoice == i {
          sum := sum + notes[n].header.total;
        }
        n := n + 1;
      }
      assert notes[..n] == notes;
    }

    /** Number, insert and post a note that has passed the cap. */
    method PostNote(i: nat, header: Header, lines: seq<DocumentLine>, on: Day, uuid: Option<Uuid>) returns (r: Outcome<()>)
      requires i < |invoices|
      modifies this
      ensures var s := Books.PostNote(old(Contents()), i, header, lines, on, uuid);
              if s.Done? then r == Done(()) && Contents() == s.value else r == Refused(s.code) && Contents() == old(Contents())
    {
      var before := series;
      var allocation := Allocate(CREDIT_NOTE_SERIES, on);
      if allocation.Refused? {
        return Refused(allocation.code);
      }
      CounterIsNotReadByNotes(old(Contents()), series, i, header, lines, allocation.value, on, uuid);
      r := InsertNote(i, header, lines, allocation.value, on, uuid);
      if r.Refused? {
        series := before;
      }
    }

    method InsertNote(i: nat, header: Header, lines: seq<DocumentLine>, a: Allocation, on: Day, uuid: Option<Uuid>) returns (r: Outcome<()>)
      requires i < |invoices| && series == a.table
      modifies this`notes, this`ledger
      ensures var s := Books.InsertNote(old(Contents()), i, header, lines, a, on, uuid);
              if s.Done? then r == Done(()) && Contents() == s.value else r == Refused(s.code) && Contents() == old(Contents())
    {
      if header.total <= 0 || IndexWhere(NoteNumbered(a.number), notes) >= 0 {
        return Refused(INTEGRITY_ERROR);
      }
      var ok := Record(invoices[i].customer, CREDIT_NOTE, -header.total, "Credit note " + a.number, on.number,
                       CREDIT_NOTE, Some(|notes| + 1), Some(invoices[i].order));
      if !ok {
        return Refused(VALIDATION_FAILED);
      }
      notes := notes + [Note(on, a.year, a.value, a.number, i, uuid, invoices[i].customer, header, lines, |ledger| - 1)];
      r := Done(());
    }

    method Collect(customer: int, active: bool, amount: int, validMethod: bool, on: int, uuid: Option<Uuid>) returns (r: Outcome<()>)
      modifies this
      ensures var s := RecordPayment(old(Contents()), customer, active, amount, validMethod, on, uuid);
              if s.Done? then r == Done(()) && Contents() == s.value else r == Refused(s.code) && Contents() == old(Contents())
    {
      if uuid.Some? && PaymentKeyed(payments, uuid.value) {
        return Done(());
      }
      if amount <= 0 || !validMethod || !active {
        return Refused(VALIDATION_FAILED);
      }
      var ok := Record(customer, PAYMENT, -amount, "Payment", on, PAYMENT, Some(|payments| + 1), None);
      if !ok {
        return Refused(VALIDATION_FAILED);
      }
      payments := payments + [Payment(uuid, customer, amount, on, false, |ledger| - 1, None)];
      r := Done(());
    }

    method Reverse(p: nat, reason: string, today: int) returns (r: Outcome<()>)
      requires p < |payments|
      modifies this
      ensures var s := ReversePayment(old(Contents()), p, reason, today);
              if s.Done? then r == Done(()) && Contents() == s.value else r == Refused(s.code) && Contents() == old(Contents())
    {
      if reason == "" {
        return Refused(VALIDATION_FAILED);
      }
      var payment := payments[p];
      if payment.reversed {
        return Done(());
      }
      var ok := Record(payment.customer, ADJUSTMENT, payment.amount, "Reversal of payment", today, PAYMENT, Some(p + 1), None);
      if !ok {
        return Refused(VALIDATION_FAILED);
      }
      payments := payments[p := payment.(reversed := true, reversalEntry := Some(|ledger| - 1))];
      r := Done(());
    }

    /** An explicit amount: nothing is read first, so nothing needs a lock. */
    method WriteOff(customer: int, amount: int, reason: string, on: int) returns (r: Outcome<()>)
      modifies this`ledger
      ensures var s := Books.WriteOff(old(Contents()), customer, amount, reason, on);
              if s.Done? then r == Done(()) && Contents() == s.value else r == Refused(s.code) && Contents() == old(Contents())
    {
      if reason == "" || amount <= 0 {
        return Refused(VALIDATION_FAILED);
      }
      var ok := Record(customer, WRITE_OFF, -amount, "Write-off: " + reason, on, BLANK, None, None);
      r := if ok then Done(()) else Refused(VALIDATION_FAILED);
    }

    method LoadOpening(customer: int, amount: int, on: int) returns (r: Outcome<()>)
      modifies this`ledger
      ensures var s := Books.LoadOpening(old(Contents()), customer, amount, on);
              if s.Done? then r == Done(()) && Contents() == s.value else r == Refused(s.code) && Contents() == old(Contents())
    {
      if amount <= 0 {
        return Refused(VALIDATION_FAILED);
      }
      if HasOpening(ledger, customer) {
        return Done(());
      }
      var ok := Record(customer, OPENING, amount, "Opening balance carried at go-live", on, BLANK, None, None);
      r := if ok then Done(()) else Refused(VALIDATION_FAILED);
    }
  }
}
