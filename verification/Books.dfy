/**
 Billing and receivables: invoices, credit notes, payments and the append-only customer ledger they
 post to. Rows are numbered from 1 in their tables, so a primary key is a position plus one.
 Every service is one transaction: it commits whole, or refuses and leaves everything as it was.
 */
module Books {
  import opened Outcomes
  import opened Sums
  import opened Querysets
  import opened Money
  import opened Pricing
  import opened Documents
  import opened Numbering
  import opened Vocabulary
  import opened LedgerWalk
  import opened Receivables

  type Uuid = int

  const INTEGRITY_ERROR := "INTEGRITY_ERROR"

  datatype InvoiceStatus = ISSUED | CANCELLED

  /** `entry` and `cancelEntry` remember where in the ledger the document posted. */
  datatype Invoice = Invoice(
    on: Day, year: int, value: nat, number: string, order: int, uuid: Option<Uuid>, customer: int,
    intraState: bool, header: Header, lines: seq<DocumentLine>, status: InvoiceStatus, entry: nat, cancelEntry: Option<nat>)

  datatype Note = Note(
    on: Day, year: int, value: nat, number: string, invoice: nat, uuid: Option<Uuid>, customer: int,
    header: Header, lines: seq<DocumentLine>, entry: nat)

  datatype Payment = Payment(uuid: Option<Uuid>, customer: int, amount: int, date: int, reversed: bool, entry: nat, reversalEntry: Option<nat>)

  datatype Ledgers = Ledgers(
    series: SeriesTable, invoices: seq<Invoice>, notes: seq<Note>, payments: seq<Payment>, ledger: seq<Row>)

  const EmptyBooks := Ledgers(map[], [], [], [], [])

  // ------------------------------------------------------------------ the ledger's one append path

  /** The sign an entry type demands; None when either will do. */
  function RequiredSign(kind: Code): Option<bool> {
    match kind
    case INVOICE => Some(true)
    case OPENING => Some(true)
    case PAYMENT => Some(false)
    case CREDIT_NOTE => Some(false)
    case WRITE_OFF => Some(false)
    case _ => None
  }

  predicate CustomerCode(kind: Code) {
    kind == INVOICE || kind == CREDIT_NOTE || kind == PAYMENT || kind == OPENING || kind == ADJUSTMENT || kind == WRITE_OFF
  }

  function RecordEntry(ledger: seq<Row>, customer: int, kind: Code, amount: int, narration: string, date: int,
                       sourceType: Code, sourceId: Option<int>, salesOrder: Option<int>): Outcome<seq<Row>>
  {
    if !CustomerCode(kind) || amount == 0 then Refused(VALIDATION_FAILED)
    else if RequiredSign(kind) == Some(true) && amount < 0 then Refused(VALIDATION_FAILED)
    else if RequiredSign(kind) == Some(false) && amount > 0 then Refused(VALIDATION_FAILED)
    else Done(ledger + [Row(customer, Entry(|ledger| + 1, date, kind, amount, narration, sourceType, sourceId), salesOrder)])
  }

  // ------------------------------------------------------------------ invoices

  function InvoiceKeyed(key: Uuid): Invoice -> bool { (i: Invoice) => i.uuid == Some(key) }
  function InvoiceOf(order: int): Invoice -> bool { (i: Invoice) => i.order == order }
  function InvoiceNumbered(number: string): Invoice -> bool { (i: Invoice) => i.number == number }

  /** The order as `issue_invoice` re-reads it under its lock. */
  datatype Sale = Sale(order: int, customer: int, goodsOut: bool, lines: seq<OrderLine>)

  /** Insert the numbered invoice with its lines and write its ledger entry. */
  function InsertInvoice(b: Ledgers, sale: Sale, intraState: bool, header: Header, lines: seq<DocumentLine>, a: Allocation, on: Day, uuid: Option<Uuid>): Outcome<Ledgers> {
    if IndexWhere(InvoiceNumbered(a.number), b.invoices) >= 0 then Refused(INTEGRITY_ERROR)
    else
      match RecordEntry(b.ledger, sale.customer, INVOICE, header.total, "Invoice " + a.number, on.number,
                        INVOICE, Some(|b.invoices| + 1), Some(sale.order))
      case Refused(code) => Refused(code)
      case Done(ledger) =>
        var invoice := Invoice(on, a.year, a.value, a.number, sale.order, uuid, sale.customer, intraState, header, lines, ISSUED, |b.ledger|, None);
        Done(b.(series := a.table, invoices := b.invoices + [invoice], ledger := ledger))
  }

  /** Number and insert, in one transaction. */
  function PostInvoice(b: Ledgers, sale: Sale, intraState: bool, header: Header, lines: seq<DocumentLine>, on: Day, uuid: Option<Uuid>): Outcome<Ledgers> {
    match AllocateNumber(b.series, INVOICE_SERIES, on)
    case Refused(code) => Refused(code)
    case Done(a) => InsertInvoice(b, sale, intraState, header, lines, a, on, uuid)
  }

  function IssueInvoice(b: Ledgers, sale: Sale, intraState: bool, on: Day, uuid: Option<Uuid>): Outcome<Ledgers> {
    if uuid.Some? && IndexWhere(InvoiceKeyed(uuid.value), b.invoices) >= 0 then Done(b)
    else if IndexWhere(InvoiceOf(sale.order), b.invoices) >= 0 then Done(b)
    else if !sale.goodsOut || |sale.lines| == 0 then Refused(VALIDATION_FAILED)
    else PostInvoice(b, sale, intraState, InvoiceHeader(sale.lines, intraState), InvoiceLines(sale.lines, intraState), on, uuid)
  }

  function NoteValue(invoice: nat): Note -> int { (n: Note) => if n.invoice == invoice then n.header.total else 0 }

  /** Value already credited against an invoice. */
  function CreditedTotal(notes: seq<Note>, invoice: nat): int { SumOf(NoteValue(invoice), notes) }

  predicate HasNotes(notes: seq<Note>, invoice: nat) { exists n :: 0 <= n < |notes| && notes[n].invoice == invoice }

  function CancelInvoice(b: Ledgers, i: nat, reason: string, today: int): Outcome<Ledgers>
    requires i < |b.invoices|
  {
    var invoice := b.invoices[i];
    if reason == "" then Refused(VALIDATION_FAILED)
    else if invoice.status == CANCELLED then Done(b)
    else if HasNotes(b.notes, i) then Refused(VALIDATION_FAILED)
    else
      match RecordEntry(b.ledger, invoice.customer, ADJUSTMENT, -invoice.header.total, "Cancellation of invoice " + invoice.number,
                        today, INVOICE, Some(i + 1), Some(invoice.order))
      case Refused(code) => Refused(code)
      case Done(ledger) =>
        Done(b.(invoices := b.invoices[i := invoice.(status := CANCELLED, cancelEntry := Some(|b.ledger|))], ledger := ledger))
  }

  // ------------------------------------------------------------------ credit notes

  function NoteKeyed(key: Uuid): Note -> bool { (n: Note) => n.uuid == Some(key) }
  function NoteNumbered(number: string): Note -> bool { (n: Note) => n.number == number }

  /** Insert the numbered note with its lines and write its ledger entry. */
  function InsertNote(b: Ledgers, i: nat, header: Header, lines: seq<DocumentLine>, a: Allocation, on: Day, uuid: Option<Uuid>): Outcome<Ledgers>
    requires i < |b.invoices|
  {
    if header.total <= 0 || IndexWhere(NoteNumbered(a.number), b.notes) >= 0 then Refused(INTEGRITY_ERROR)
    else
      match RecordEntry(b.ledger, b.invoices[i].customer, CREDIT_NOTE, -header.total, "Credit note " + a.number, on.number,
                        CREDIT_NOTE, Some(|b.notes| + 1), Some(b.invoices[i].order))
      case Refused(code) => Refused(code)
      case Done(ledger) =>
        var note := Note(on, a.year, a.value, a.number, i, uuid, b.invoices[i].customer, header, lines, |b.ledger|);
        Done(b.(series := a.table, notes := b.notes + [note], ledger := ledger))
  }

  /** Number and insert, in one transaction. */
  function PostNote(b: Ledgers, i: nat, header: Header, lines: seq<DocumentLine>, on: Day, uuid: Option<Uuid>): Outcome<Ledgers>
    requires i < |b.invoices|
  {
    match AllocateNumber(b.series, CREDIT_NOTE_SERIES, on)
    case Refused(code) => Refused(code)
    case Done(a) => InsertNote(b, i, header, lines, a, on, uuid)
  }

  function IssueCreditNote(b: Ledgers, i: nat, requests: seq<Request>, reason: string, on: Day, uuid: Option<Uuid>): Outcome<Ledgers>
    requires i < |b.invoices| && Positive(requests)
  {
    var invoice := b.invoices[i];
    if reason == "" || |requests| == 0 then Refused(VALIDATION_FAILED)
    else if uuid.Some? && IndexWhere(NoteKeyed(uuid.value), b.notes) >= 0 then Done(b)
    else if invoice.status == CANCELLED then Refused(VALIDATION_FAILED)
    else
      var intraState := invoice.header.gst.igst == 0;
      match CreditLines(i, requests, intraState)
      case Refused(code) => Refused(code)
      case Done(lines) =>
        var header := CreditHeader(lines, intraState);
        if CreditedTotal(b.notes, i) + header.total > invoice.header.total then Refused(VALIDATION_FAILED)
        else PostNote(b, i, header, lines, on, uuid)
  }

  // ------------------------------------------------------------------ payments, write-offs, openings

  predicate PaymentKeyed(payments: seq<Payment>, key: Uuid) { exists p :: 0 <= p < |payments| && payments[p].uuid == Some(key) }

  function RecordPayment(b: Ledgers, customer: int, active: bool, amount: int, validMethod: bool, on: int, uuid: Option<Uuid>): Outcome<Ledgers> {
    if uuid.Some? && PaymentKeyed(b.payments, uuid.value) then Done(b)
    else if amount <= 0 || !validMethod || !active then Refused(VALIDATION_FAILED)
    else
      match RecordEntry(b.ledger, customer, PAYMENT, -amount, "Payment", on, PAYMENT, Some(|b.payments| + 1), None)
      case Refused(code) => Refused(code)
      case Done(ledger) =>
        Done(b.(payments := b.payments + [Payment(uuid, customer, amount, on, false, |b.ledger|, None)], ledger := ledger))
  }

  function ReversePayment(b: Ledgers, p: nat, reason: string, today: int): Outcome<Ledgers>
    requires p < |b.payments|
  {
    var payment := b.payments[p];
    if reason == "" then Refused(VALIDATION_FAILED)
    else if payment.reversed then Done(b)
    else
      match RecordEntry(b.ledger, payment.customer, ADJUSTMENT, payment.amount, "Reversal of payment", today, PAYMENT, Some(p + 1), None)
      case Refused(code) => Refused(code)
      case Done(ledger) =>
        Done(b.(payments := b.payments[p := payment.(reversed := true, reversalEntry := Some(|b.ledger|))], ledger := ledger))
  }

  function WriteOff(b: Ledgers, customer: int, amount: int, reason: string, on: int): Outcome<Ledgers> {
    if reason == "" || amount <= 0 then Refused(VALIDATION_FAILED)
    else
      match RecordEntry(b.ledger, customer, WRITE_OFF, -amount, "Write-off: " + reason, on, BLANK, None, None)
      case Refused(code) => Refused(code)
      case Done(ledger) => Done(b.(ledger := ledger))
  }

  predicate IsOpening(r: Row, customer: int) { r.customerId == customer && r.entry.kind == OPENING }

  predicate HasOpening(ledger: seq<Row>, customer: int) { exists k :: 0 <= k < |ledger| && IsOpening(ledger[k], customer) }

  function LoadOpening(b: Ledgers, customer: int, amount: int, on: int): Outcome<Ledgers> {
    if amount <= 0 then Refused(VALIDATION_FAILED)
    else if HasOpening(b.ledger, customer) then Done(b)
    else
      match RecordEntry(b.ledger, customer, OPENING, amount, "Opening balance carried at go-live", on, BLANK, None, None)
      case Refused(code) => Refused(code)
      case Done(ledger) => Done(b.(ledger := ledger))
  }

  // ------------------------------------------------------------------ what the tables say about each other

  predicate NamesSource(e: Entry, kind: Code, sourceType: Code, i: nat) {
    e.kind == kind && e.sourceType == sourceType && e.sourceId == Some(i + 1)
  }

  /** Row `k` of the ledger is exactly what one document, write-off or opening posted. */
  predicate Explained(b: Ledgers, k: nat)
    requires k < |b.ledger|
  {
    var (r, e) := (b.ledger[k], b.ledger[k].entry);
    var id := if e.sourceId.Some? then e.sourceId.value - 1 else -1;
    && e.pk == k + 1
    && match e.kind
       case INVOICE =>
         && e.sourceType == INVOICE && 0 <= id < |b.invoices| && b.invoices[id].entry == k
         && r.customerId == b.invoices[id].customer && e.amount == b.invoices[id].header.total > 0
         && r.salesOrder == Some(b.invoices[id].order) && e.date == b.invoices[id].on.number && e.narration == "Invoice " + b.invoices[id].number
       case CREDIT_NOTE =>
         && e.sourceType == CREDIT_NOTE && 0 <= id < |b.notes| && b.notes[id].entry == k
         && r.customerId == b.notes[id].customer && e.amount == -b.notes[id].header.total < 0
         && e.date == b.notes[id].on.number && e.narration == "Credit note " + b.notes[id].number
       case PAYMENT =>
         && e.sourceType == PAYMENT && 0 <= id < |b.payments| && b.payments[id].entry == k
         && r.customerId == b.payments[id].customer && e.amount == -b.payments[id].amount < 0 && e.date == b.payments[id].date
       case ADJUSTMENT =>
         || (&& e.sourceType == INVOICE && 0 <= id < |b.invoices| && b.invoices[id].cancelEntry == Some(k)
             && r.customerId == b.invoices[id].customer && e.amount == -b.invoices[id].header.total)
         || (&& e.sourceType == PAYMENT && 0 <= id < |b.payments| && b.payments[id].reversalEntry == Some(k)
             && r.customerId == b.payments[id].customer && e.amount == b.payments[id].amount)
       case OPENING => e.sourceType == BLANK && e.sourceId.None? && e.amount > 0
       case WRITE_OFF => e.sourceType == BLANK && e.sourceId.None? && e.amount < 0
       case _ => false
  }

  predicate InvoicePosted(b: Ledgers, i: nat)
    requires i < |b.invoices|
  {
    var invoice := b.invoices[i];
    && invoice.entry < |b.ledger| && NamesSource(b.ledger[invoice.entry].entry, INVOICE, INVOICE, i)
    && (invoice.status == CANCELLED <==> invoice.cancelEntry.Some?)
    && (invoice.cancelEntry.Some? ==>
          invoice.cancelEntry.value < |b.ledger| && NamesSource(b.ledger[invoice.cancelEntry.value].entry, ADJUSTMENT, INVOICE, i))
  }

  predicate NotePosted(b: Ledgers, n: nat)
    requires n < |b.notes|
  {
    && b.notes[n].entry < |b.ledger| && NamesSource(b.ledger[b.notes[n].entry].entry, CREDIT_NOTE, CREDIT_NOTE, n)
    && b.notes[n].invoice < |b.invoices| && b.notes[n].customer == b.invoices[b.notes[n].invoice].customer
    && b.invoices[b.notes[n].invoice].status == ISSUED
  }

  predicate PaymentPosted(b: Ledgers, p: nat)
    requires p < |b.payments|
  {
    var payment := b.payments[p];
    && payment.entry < |b.ledger| && NamesSource(b.ledger[payment.entry].entry, PAYMENT, PAYMENT, p)
    && (payment.reversed <==> payment.reversalEntry.Some?)
    && (payment.reversalEntry.Some? ==>
          payment.reversalEntry.value < |b.ledger| && NamesSource(b.ledger[payment.reversalEntry.value].entry, ADJUSTMENT, PAYMENT, p))
  }

  /** Documents and ledger rows correspond one to one, each explaining the other. */
  ghost predicate Posted(b: Ledgers) {
    && (forall k :: 0 <= k < |b.ledger| ==> Explained(b, k))
    && (forall i :: 0 <= i < |b.invoices| ==> InvoicePosted(b, i))
    && (forall n :: 0 <= n < |b.notes| ==> NotePosted(b, n))
    && (forall p :: 0 <= p < |b.payments| ==> PaymentPosted(b, p))
  }

  /** What a ledger entry credits against an invoice: its amount, if it is a note against that invoice. */
  function Credits(notes: seq<Note>, invoice: nat, e: Entry): int {
    if e.kind == CREDIT_NOTE && e.sourceId.Some? && 0 < e.sourceId.value <= |notes| && notes[e.sourceId.value - 1].invoice == invoice
    then -e.amount else 0
  }

  function NoteRowValue(notes: seq<Note>, invoice: nat): Row -> int {
    (r: Row) => Credits(notes, invoice, r.entry)
  }

  /** Never credited beyond its total; credited at all only while it stands; and the ledger shows the same. */
  ghost predicate Capped(b: Ledgers) {
    forall i :: 0 <= i < |b.invoices| ==>
      && CreditedTotal(b.notes, i) <= b.invoices[i].header.total
      && SumOf(NoteRowValue(b.notes, i), b.ledger) == CreditedTotal(b.notes, i)
  }

  ghost predicate Unique(b: Ledgers) {
    && (forall i, j :: 0 <= i < j < |b.invoices| ==> b.invoices[i].order != b.invoices[j].order && b.invoices[i].number != b.invoices[j].number)
    && (forall i, j :: 0 <= i < j < |b.notes| ==> b.notes[i].number != b.notes[j].number)
    && (forall k, l, c :: 0 <= k < l < |b.ledger| && IsOpening(b.ledger[k], c) ==> !IsOpening(b.ledger[l], c))
  }

  // ------------------------------------------------------------------ numbering

  /** The values of one series and year, in the order the documents were issued. */
  function InvoiceValues(invoices: seq<Invoice>, year: int): seq<nat> {
    if |invoices| == 0 then []
    else
      var last := invoices[|invoices| - 1];
      if last.year == year then InvoiceValues(invoices[..|invoices| - 1], year) + [last.value] else InvoiceValues(invoices[..|invoices| - 1], year)
  }

  function NoteValues(notes: seq<Note>, year: int): seq<nat> {
    if |notes| == 0 then []
    else
      var last := notes[|notes| - 1];
      if last.year == year then NoteValues(notes[..|notes| - 1], year) + [last.value] else NoteValues(notes[..|notes| - 1], year)
  }

  /** 1, 2, 3, ... n. */
  predicate CountsUpTo(values: seq<nat>, n: nat) { |values| == n && forall i :: 0 <= i < n ==> values[i] == i + 1 }

  /** The numbers on committed documents of each series and year are 1 to the counter, in issue order. */
  ghost predicate Gapless(b: Ledgers) {
    forall year ::
      && CountsUpTo(InvoiceValues(b.invoices, year), Current(b.series, INVOICE_SERIES, year))
      && CountsUpTo(NoteValues(b.notes, year), Current(b.series, CREDIT_NOTE_SERIES, year))
  }

  ghost predicate Sound(b: Ledgers) { Posted(b) && Capped(b) && Unique(b) && Gapless(b) }
}
