/**
 Purchase orders, the goods received against them, and what the supplier is owed for it. Rows are
 numbered by position; a primary key is a position plus one. Each service commits whole or not at all.
 */
module Purchasing {
  import opened Outcomes
  import opened Sums
  import opened Querysets
  import opened Money
  import opened Vocabulary
  import opened LedgerWalk

  datatype Status = DRAFT | ISSUED | PARTIALLY_RECEIVED | RECEIVED | CLOSED | CANCELLED

  /** What was agreed, with its figures computed when the line was written. */
  datatype PurchaseLine = PurchaseLine(product: int, ordered: int, unitCost: int, taxRate: int, taxable: int, tax: int, total: int)

  datatype PurchaseOrder = PurchaseOrder(
    supplier: int, status: Status, orderDate: int, expected: Option<int>, lines: seq<PurchaseLine>, totals: Totals)

  datatype ReceiptLine = ReceiptLine(line: nat, product: int, quantity: int, taxable: int, tax: int, total: int)

  datatype Totals = Totals(subtotal: int, tax: int, total: int)

  datatype Receipt = Receipt(order: nat, supplier: int, date: int, lines: seq<ReceiptLine>, totals: Totals)

  /** A RECEIPT movement; `receipt` is its source document. */
  datatype Movement = Movement(product: int, quantity: int, receipt: nat)

  datatype Method = CASH | UPI | BANK | CHEQUE | UnknownMethod(spelling: string)

  /** Every caller-supplied field of a payment: what a replay is compared on. */
  datatype Payload = Payload(supplier: int, amount: int, date: int, means: Method, reference: string, notes: string)

  datatype Payment = Payment(submission: int, payload: Payload, reversed: bool, entry: nat, reversalEntry: Option<nat>)

  datatype SupplierRow = SupplierRow(supplier: int, entry: Entry)

  datatype Tables = Tables(
    orders: seq<PurchaseOrder>, receipts: seq<Receipt>, stock: seq<Movement>, payments: seq<Payment>, ledger: seq<SupplierRow>)

  const Empty := Tables([], [], [], [], [])

  // ------------------------------------------------------------------ the supplier ledger's append path

  predicate SupplierCode(kind: Code) {
    kind == GOODS_RECEIPT || kind == PAYMENT || kind == OPENING || kind == ADJUSTMENT || kind == DEBIT_NOTE
  }

  function RecordSupplierEntry(ledger: seq<SupplierRow>, supplier: int, kind: Code, amount: int, narration: string, date: int,
                               sourceType: Code, sourceId: Option<int>): Outcome<seq<SupplierRow>>
  {
    if !SupplierCode(kind) || amount == 0 then Refused(VALIDATION_FAILED)
    else if kind == GOODS_RECEIPT && amount < 0 then Refused(VALIDATION_FAILED)
    else if (kind == PAYMENT || kind == DEBIT_NOTE) && amount > 0 then Refused(VALIDATION_FAILED)
    else Done(ledger + [SupplierRow(supplier, Entry(|ledger| + 1, date, kind, amount, narration, sourceType, sourceId))])
  }

  // ------------------------------------------------------------------ purchase orders

  function Allowed(from: Status): set<Status> {
    match from
    case DRAFT => {ISSUED, CANCELLED}
    case ISSUED => {PARTIALLY_RECEIVED, RECEIVED, CANCELLED}
    case PARTIALLY_RECEIVED => {PARTIALLY_RECEIVED, RECEIVED, CLOSED}
    case RECEIVED => {CLOSED}
    case CLOSED => {}
    case CANCELLED => {}
  }

  function Transition(t: Tables, o: nat, to: Status): Outcome<Tables>
    requires o < |t.orders|
  {
    if to !in Allowed(t.orders[o].status) then Refused(VALIDATION_FAILED)
    else Done(t.(orders := t.orders[o := t.orders[o].(status := to)]))
  }

  datatype DraftLine = DraftLine(product: int, active: bool, taxRate: int, ordered: int, unitCost: int)

  predicate Acceptable(l: DraftLine) { l.active && l.ordered > 0 && l.unitCost >= 0 }

  /** Cost and tax are each rounded at line level. */
  function TaxableCost(unitCost: int, quantity: int): int { HalfUp(unitCost * quantity, 1000) }

  function TaxOn(taxable: int, rate: int): int { HalfUp(taxable * rate, 10000) }

  function NewLine(l: DraftLine): PurchaseLine {
    var taxable := TaxableCost(l.unitCost, l.ordered);
    var tax := TaxOn(taxable, l.taxRate);
    PurchaseLine(l.product, l.ordered, l.unitCost, l.taxRate, taxable, tax, taxable + tax)
  }

  function NewLines(raw: seq<DraftLine>): seq<PurchaseLine> {
    if |raw| == 0 then [] else NewLines(raw[..|raw| - 1]) + [NewLine(raw[|raw| - 1])]
  }

  predicate LinesAcceptable(raw: seq<DraftLine>) { |raw| > 0 && forall i :: 0 <= i < |raw| ==> Acceptable(raw[i]) }

  function AgreedTaxable(): PurchaseLine -> int { (l: PurchaseLine) => l.taxable }
  function AgreedTax(): PurchaseLine -> int { (l: PurchaseLine) => l.tax }
  function AgreedTotal(): PurchaseLine -> int { (l: PurchaseLine) => l.total }

  function OrderTotals(lines: seq<PurchaseLine>): Totals {
    Totals(SumOf(AgreedTaxable(), lines), SumOf(AgreedTax(), lines), SumOf(AgreedTotal(), lines))
  }

  predicate BeforeOrder(expected: Option<int>, orderDate: int) { expected.Some? && expected.value < orderDate }

  function CreateOrder(t: Tables, supplier: int, active: bool, orderDate: Option<int>, expected: Option<int>, raw: seq<DraftLine>): Outcome<Tables> {
    if orderDate.None? || !active || BeforeOrder(expected, orderDate.value) || !LinesAcceptable(raw) then Refused(VALIDATION_FAILED)
    else Done(t.(orders := t.orders + [PurchaseOrder(supplier, DRAFT, orderDate.value, expected, NewLines(raw), OrderTotals(NewLines(raw)))]))
  }

  /** `rescheduled` is absent when the caller does not change the expected date, and may change it to none. */
  function AmendOrder(t: Tables, o: nat, rescheduled: Option<Option<int>>, raw: seq<DraftLine>): Outcome<Tables>
    requires o < |t.orders|
  {
    var po := t.orders[o];
    if po.status != DRAFT || (rescheduled.Some? && BeforeOrder(rescheduled.value, po.orderDate)) || !LinesAcceptable(raw) then Refused(VALIDATION_FAILED)
    else
      var expected := if rescheduled.Some? then rescheduled.value else po.expected;
      Done(t.(orders := t.orders[o := po.(expected := expected, lines := NewLines(raw), totals := OrderTotals(NewLines(raw)))]))
  }

  function IssueOrder(t: Tables, o: nat): Outcome<Tables>
    requires o < |t.orders|
  {
    if |t.orders[o].lines| == 0 then Refused(VALIDATION_FAILED) else Transition(t, o, ISSUED)
  }

  function EndOrder(t: Tables, o: nat, to: Status, reason: string): Outcome<Tables>
    requires o < |t.orders|
  {
    if reason == "" then Refused(VALIDATION_FAILED) else Transition(t, o, to)
  }

  // ------------------------------------------------------------------ goods receipts

  /** What is still below the ceiling: ordered, plus the tolerance in hundredths of a percent. */
  function AcceptanceLimit(ordered: int, tolerance: int): int { HalfUp(ordered * (10000 + tolerance), 10000) }

  function OnLine(l: nat): ReceiptLine -> int { (r: ReceiptLine) => if r.line == l then r.quantity else 0 }

  function AgainstLine(o: nat, l: nat): Receipt -> int { (r: Receipt) => if r.order == o then SumOf(OnLine(l), r.lines) else 0 }

  /** Everything received so far on one line of one order. */
  function ReceivedQuantity(receipts: seq<Receipt>, o: nat, l: nat): int { SumOf(AgainstLine(o, l), receipts) }

  /** One line as submitted: a line of some order, and how much arrived. */
  datatype RawLine = RawLine(order: nat, line: nat, quantity: int)

  function PriceLine(po: PurchaseOrder, raw: RawLine): ReceiptLine
    requires raw.line < |po.lines|
  {
    var l := po.lines[raw.line];
    var taxable := TaxableCost(l.unitCost, raw.quantity);
    var tax := TaxOn(taxable, l.taxRate);
    ReceiptLine(raw.line, l.product, raw.quantity, taxable, tax, taxable + tax)
  }

  predicate LineAccepted(t: Tables, o: nat, raw: RawLine, seen: set<nat>, tolerance: int)
    requires o < |t.orders|
  {
    && raw.order == o && raw.line < |t.orders[o].lines| && raw.line !in seen && raw.quantity > 0
    && ReceivedQuantity(t.receipts, o, raw.line) + raw.quantity <= AcceptanceLimit(t.orders[o].lines[raw.line].ordered, tolerance)
  }

  function Seen(raw: seq<RawLine>): set<nat> { set i | 0 <= i < |raw| :: raw[i].line }

  /** Each submitted line in turn, or the first refusal. Nothing is written. */
  function PriceReceiptLines(t: Tables, o: nat, raw: seq<RawLine>, tolerance: int): Outcome<seq<ReceiptLine>>
    requires o < |t.orders|
  {
    if |raw| == 0 then Done([])
    else
      var front, last := raw[..|raw| - 1], raw[|raw| - 1];
      match PriceReceiptLines(t, o, front, tolerance)
      case Refused(code) => Refused(code)
      case Done(lines) =>
        if LineAccepted(t, o, last, Seen(front), tolerance) then Done(lines + [PriceLine(t.orders[o], last)]) else Refused(VALIDATION_FAILED)
  }

  function LineTaxable(): ReceiptLine -> int { (r: ReceiptLine) => r.taxable }
  function LineTax(): ReceiptLine -> int { (r: ReceiptLine) => r.tax }
  function LineTotal(): ReceiptLine -> int { (r: ReceiptLine) => r.total }

  function ReceiptTotals(lines: seq<ReceiptLine>): Totals {
    Totals(SumOf(LineTaxable(), lines), SumOf(LineTax(), lines), SumOf(LineTotal(), lines))
  }

  function MovementsOf(lines: seq<ReceiptLine>, receipt: nat): seq<Movement> {
    if |lines| == 0 then []
    else
      var l := lines[|lines| - 1];
      MovementsOf(lines[..|lines| - 1], receipt) + [Movement(l.product, Abs(l.quantity), receipt)]
  }

  predicate LineMet(po: PurchaseOrder, receipts: seq<Receipt>, o: nat, l: nat)
    requires l < |po.lines|
  {
    ReceivedQuantity(receipts, o, l) >= po.lines[l].ordered
  }

  predicate AllMet(po: PurchaseOrder, receipts: seq<Receipt>, o: nat) {
    forall l :: 0 <= l < |po.lines| ==> LineMet(po, receipts, o, l)
  }

  predicate Receivable(s: Status) { s == ISSUED || s == PARTIALLY_RECEIVED }

  /** The tables once the receipt, its movements and its payable are in; the order's status is settled next. */
  function PostReceipt(t: Tables, o: nat, date: int, lines: seq<ReceiptLine>): Outcome<Tables>
    requires o < |t.orders|
  {
    var receipt := Receipt(o, t.orders[o].supplier, date, lines, ReceiptTotals(lines));
    var posted := t.(receipts := t.receipts + [receipt], stock := t.stock + MovementsOf(lines, |t.receipts|));
    if receipt.totals.total == 0 then Done(posted)
    else
      match RecordSupplierEntry(t.ledger, receipt.supplier, GOODS_RECEIPT, receipt.totals.total, "Goods receipt", date,
                                GOODS_RECEIPT, Some(|t.receipts| + 1))
      case Refused(code) => Refused(code)
      case Done(ledger) => Done(posted.(ledger := ledger))
  }

  function CreateGoodsReceipt(t: Tables, o: nat, date: Option<int>, raw: seq<RawLine>, tolerance: int): Outcome<Tables>
    requires o < |t.orders|
  {
    var po := t.orders[o];
    if date.None? || !Receivable(po.status) || date.value < po.orderDate || |raw| == 0 then Refused(VALIDATION_FAILED)
    else
      match PriceReceiptLines(t, o, raw, tolerance)
      case Refused(code) => Refused(code)
      case Done(lines) =>
        match PostReceipt(t, o, date.value, lines)
        case Refused(code) => Refused(code)
        case Done(posted) => Transition(posted, o, if AllMet(po, posted.receipts, o) then RECEIVED else PARTIALLY_RECEIVED)
  }

  // ------------------------------------------------------------------ supplier payments

  function SubmittedAs(submission: int): Payment -> bool { (p: Payment) => p.submission == submission }

  /** A repeated form: the original if nothing differs, a refusal if anything does. */
  function Replayed(t: Tables, p: nat, payload: Payload): Outcome<Tables>
    requires p < |t.payments|
  {
    if t.payments[p].payload == payload then Done(t) else Refused(VALIDATION_FAILED)
  }

  function RecordSupplierPayment(t: Tables, submission: Option<int>, dated: bool, payload: Payload): Outcome<Tables> {
    if submission.None? || !dated || payload.means.UnknownMethod? || payload.amount <= 0 then Refused(VALIDATION_FAILED)
    else
      var existing := IndexWhere(SubmittedAs(submission.value), t.payments);
      if existing >= 0 then Replayed(t, existing, payload)
      else
        match RecordSupplierEntry(t.ledger, payload.supplier, PAYMENT, -payload.amount, "Payment", payload.date, PAYMENT, Some(|t.payments| + 1))
        case Refused(code) => Refused(code)
        case Done(ledger) =>
          Done(t.(payments := t.payments + [Payment(submission.value, payload, false, |t.ledger|, None)], ledger := ledger))
  }

  function ReverseSupplierPayment(t: Tables, p: nat, reason: string, date: Option<int>): Outcome<Tables>
    requires p < |t.payments|
  {
    var payment := t.payments[p];
    if reason == "" || date.None? then Refused(VALIDATION_FAILED)
    else if payment.reversed then Done(t)
    else
      match RecordSupplierEntry(t.ledger, payment.payload.supplier, ADJUSTMENT, payment.payload.amount, "Reversal of payment",
                                date.value, PAYMENT, Some(p + 1))
      case Refused(code) => Refused(code)
      case Done(ledger) =>
        Done(t.(payments := t.payments[p := payment.(reversed := true, reversalEntry := Some(|t.ledger|))], ledger := ledger))
  }

  predicate IsOpening(r: SupplierRow, supplier: int) { r.supplier == supplier && r.entry.kind == OPENING }

  predicate HasOpening(ledger: seq<SupplierRow>, supplier: int) { exists k :: 0 <= k < |ledger| && IsOpening(ledger[k], supplier) }

  /** Unlike a customer's, a supplier's opening may be negative, and a second one is refused. */
  function LoadSupplierOpening(t: Tables, supplier: int, amount: int, date: Option<int>): Outcome<Tables> {
    if date.None? || amount == 0 || HasOpening(t.ledger, supplier) then Refused(VALIDATION_FAILED)
    else
      match RecordSupplierEntry(t.ledger, supplier, OPENING, amount, "Opening balance carried at go-live", date.value, BLANK, None)
      case Refused(code) => Refused(code)
      case Done(ledger) => Done(t.(ledger := ledger))
  }

  // ------------------------------------------------------------------ runs

  datatype Action =
    | Create(supplier: int, active: bool, orderDate: Option<int>, expected: Option<int>, raw: seq<DraftLine>)
    | Amend(order: nat, rescheduled: Option<Option<int>>, raw: seq<DraftLine>)
    | Issue(order: nat)
    | Cancel(order: nat, reason: string)
    | Close(order: nat, reason: string)
    | Receive(order: nat, date: Option<int>, lines: seq<RawLine>)
    | Pay(submission: Option<int>, dated: bool, payload: Payload)
    | Reverse(payment: nat, reason: string, date: Option<int>)
    | Open(supplier: int, amount: int, date: Option<int>)

  /** Product tax rates are percentages (`ck_product_tax_rate`). */
  predicate Sane(a: Action) {
    (a.Create? || a.Amend?) ==> forall i :: 0 <= i < |a.raw| ==> 0 <= a.raw[i].taxRate <= 10000
  }

  function Try(t: Tables, a: Action, tolerance: int): Outcome<Tables> {
    match a
    case Create(supplier, active, orderDate, expected, raw) => CreateOrder(t, supplier, active, orderDate, expected, raw)
    case Amend(o, rescheduled, raw) => if o < |t.orders| then AmendOrder(t, o, rescheduled, raw) else Refused("NOT_FOUND")
    case Issue(o) => if o < |t.orders| then IssueOrder(t, o) else Refused("NOT_FOUND")
    case Cancel(o, reason) => if o < |t.orders| then EndOrder(t, o, CANCELLED, reason) else Refused("NOT_FOUND")
    case Close(o, reason) => if o < |t.orders| then EndOrder(t, o, CLOSED, reason) else Refused("NOT_FOUND")
    case Receive(o, date, lines) => if o < |t.orders| then CreateGoodsReceipt(t, o, date, lines, tolerance) else Refused("NOT_FOUND")
    case Pay(submission, dated, payload) => RecordSupplierPayment(t, submission, dated, payload)
    case Reverse(p, reason, date) => if p < |t.payments| then ReverseSupplierPayment(t, p, reason, date) else Refused("NOT_FOUND")
    case Open(supplier, amount, date) => LoadSupplierOpening(t, supplier, amount, date)
  }

  function Next(t: Tables, a: Action, tolerance: int): Tables {
    var r := Try(t, a, tolerance);
    if r.Done? then r.value else t
  }

  function Run(t: Tables, actions: seq<Action>, tolerance: int): Tables {
    if |actions| == 0 then t else Next(Run(t, actions[..|actions| - 1], tolerance), actions[|actions| - 1], tolerance)
  }

  predicate AllSane(actions: seq<Action>) { forall i :: 0 <= i < |actions| ==> Sane(actions[i]) }
}
