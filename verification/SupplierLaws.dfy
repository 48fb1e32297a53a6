/** Stock, payables and payments on the buying side: one receipt, one gain, one liability; one form, one payment. */
module SupplierLaws {
  import opened Outcomes
  import opened Sums
  import opened Querysets
  import opened Vocabulary
  import opened LedgerWalk
  import opened WalkLaws
  import opened Reversal
  import opened Purchasing
  import opened PurchasingLaws

  // ------------------------------------------------------------------ stock

  function GainedBy(r: nat, product: int): Movement -> int {
    (m: Movement) => if m.receipt == r && m.product == product then m.quantity else 0
  }

  function QuantityOf(product: int): ReceiptLine -> int { (l: ReceiptLine) => if l.product == product then l.quantity else 0 }

  /** Product by product, stock gained from a receipt is what the receipt says arrived. */
  ghost predicate StockAgrees(t: Tables, r: nat)
    requires r < |t.receipts|
  {
    forall product :: SumOf(GainedBy(r, product), t.stock) == SumOf(QuantityOf(product), t.receipts[r].lines)
  }

  ghost predicate Stocked(t: Tables) {
    && (forall m :: 0 <= m < |t.stock| ==> t.stock[m].receipt < |t.receipts| && t.stock[m].quantity > 0)
    && (forall r :: 0 <= r < |t.receipts| ==> StockAgrees(t, r))
  }

  lemma {:induction false} MovementsTotal(lines: seq<ReceiptLine>, e: nat, r: nat, product: int)
    requires forall i :: 0 <= i < |lines| ==> lines[i].quantity > 0
    ensures SumOf(GainedBy(r, product), MovementsOf(lines, e)) == if r == e then SumOf(QuantityOf(product), lines) else 0
    ensures forall m :: m in MovementsOf(lines, e) ==> m.receipt == e && m.quantity > 0
  {
    if |lines| != 0 {
      var last := lines[|lines| - 1];
      MovementsTotal(lines[..|lines| - 1], e, r, product);
      SumOfSnoc(GainedBy(r, product), MovementsOf(lines[..|lines| - 1], e), Movement(last.product, Abs(last.quantity), e));
    }
  }

  lemma {:induction false} NothingGainedYet(stock: seq<Movement>, r: nat, product: int)
    requires forall m :: 0 <= m < |stock| ==> stock[m].receipt != r
    ensures SumOf(GainedBy(r, product), stock) == 0
  {
    if |stock| != 0 { NothingGainedYet(stock[..|stock| - 1], r, product); }
  }

  lemma ReceivingStocks(t: Tables, t': Tables, o: nat, lines: seq<ReceiptLine>)
    requires Stocked(t) && Receives(t, t', o, lines) && forall i :: 0 <= i < |lines| ==> lines[i].quantity > 0
    ensures Stocked(t')
  {
    var n, moves := |t.receipts|, MovementsOf(lines, |t.receipts|);
    MovementsTotal(lines, n, 0, 0);
    forall m | 0 <= m < |t'.stock| ensures t'.stock[m].receipt < |t'.receipts| && t'.stock[m].quantity > 0 {
      if m >= |t.stock| { assert t'.stock[m] == moves[m - |t.stock|] && moves[m - |t.stock|] in moves; }
    }
    forall r | 0 <= r < |t'.receipts| ensures StockAgrees(t', r) {
      forall product ensures SumOf(GainedBy(r, product), t'.stock) == SumOf(QuantityOf(product), t'.receipts[r].lines) {
        SumOfConcat(GainedBy(r, product), t.stock, moves);
        MovementsTotal(lines, n, r, product);
        if r == n { NothingGainedYet(t.stock, n, product); } else { assert StockAgrees(t, r) && t'.receipts[r] == t.receipts[r]; }
      }
    }
  }

  // ------------------------------------------------------------------ the ledger, row by row

  predicate Explained(t: Tables, k: nat)
    requires k < |t.ledger|
  {
    var (r, e) := (t.ledger[k], t.ledger[k].entry);
    var id := if e.sourceId.Some? then e.sourceId.value - 1 else -1;
    && e.pk == k + 1
    && match e.kind
       case GOODS_RECEIPT =>
         e.sourceType == GOODS_RECEIPT && 0 <= id < |t.receipts| && r.supplier == t.receipts[id].supplier && e.amount == t.receipts[id].totals.total > 0
         && e.date == t.receipts[id].date
       case PAYMENT =>
         && e.sourceType == PAYMENT && 0 <= id < |t.payments| && t.payments[id].entry == k
         && r.supplier == t.payments[id].payload.supplier && e.amount == -t.payments[id].payload.amount < 0
         && e.date == t.payments[id].payload.date
       case ADJUSTMENT =>
         && e.sourceType == PAYMENT && 0 <= id < |t.payments| && t.payments[id].reversalEntry == Some(k)
         && r.supplier == t.payments[id].payload.supplier && e.amount == t.payments[id].payload.amount
       case OPENING => e.sourceType == BLANK && e.sourceId.None?
       case _ => false
  }

  predicate PaymentPosted(t: Tables, p: nat)
    requires p < |t.payments|
  {
    var payment := t.payments[p];
    && payment.entry < |t.ledger| && t.ledger[payment.entry].entry.kind == PAYMENT && t.ledger[payment.entry].entry.sourceId == Some(p + 1)
    && (payment.reversed <==> payment.reversalEntry.Some?)
    && (payment.reversalEntry.Some? ==>
          payment.reversalEntry.value < |t.ledger| && t.ledger[payment.reversalEntry.value].entry.kind == ADJUSTMENT
          && t.ledger[payment.reversalEntry.value].entry.sourceId == Some(p + 1))
  }

  /** Each payment has its one entry, each reversed one its one compensation, and each form at most one payment. */
  ghost predicate Posted(t: Tables) {
    && (forall k :: 0 <= k < |t.ledger| ==> Explained(t, k))
    && (forall p :: 0 <= p < |t.payments| ==> PaymentPosted(t, p))
    && (forall p, q :: 0 <= p < q < |t.payments| ==> t.payments[p].submission != t.payments[q].submission)
    && (forall k, l, s :: 0 <= k < l < |t.ledger| && IsOpening(t.ledger[k], s) ==> !IsOpening(t.ledger[l], s))
  }

  /** Rows and documents grow, and no posting moves. */
  ghost predicate Extends(t: Tables, t': Tables) {
    && t.ledger <= t'.ledger && t.receipts <= t'.receipts && |t.payments| <= |t'.payments|
    && forall p :: 0 <= p < |t.payments| ==>
         && t'.payments[p].payload == t.payments[p].payload && t'.payments[p].entry == t.payments[p].entry
         && t'.payments[p].submission == t.payments[p].submission
         && (t.payments[p].reversalEntry.Some? ==> t'.payments[p].reversalEntry == t.payments[p].reversalEntry)
  }

  lemma RowsStayExplained(t: Tables, t': Tables)
    requires Posted(t) && Extends(t, t') && |t'.ledger| <= |t.ledger| + 1
    requires |t'.ledger| == |t.ledger| + 1 ==> Explained(t', |t.ledger|)
    ensures forall k :: 0 <= k < |t'.ledger| ==> Explained(t', k)
  {
    forall k | 0 <= k < |t'.ledger| ensures Explained(t', k) {
      if k < |t.ledger| { RowStaysExplained(t, t', k); }
    }
  }

  lemma RowStaysExplained(t: Tables, t': Tables, k: nat)
    requires Extends(t, t') && k < |t.ledger| && Explained(t, k)
    ensures Explained(t', k)
  {
    assert t'.ledger[k] == t.ledger[k];
  }

  lemma PayPosts(t: Tables, submission: Option<int>, dated: bool, payload: Payload)
    requires Posted(t)
    ensures var r := RecordSupplierPayment(t, submission, dated, payload); r.Done? ==> Posted(r.value)
  {
    var r := RecordSupplierPayment(t, submission, dated, payload);
    if r.Done? && r.value != t {
      var t' := r.value;
      RowsStayExplained(t, t');
      forall p | 0 <= p < |t'.payments| ensures PaymentPosted(t', p) {
        if p < |t.payments| { assert PaymentPosted(t, p); }
      }
    }
  }

  lemma ReversePosts(t: Tables, p: nat, reason: string, date: Option<int>)
    requires Posted(t) && p < |t.payments|
    ensures var r := ReverseSupplierPayment(t, p, reason, date); r.Done? ==> Posted(r.value)
  {
    var r := ReverseSupplierPayment(t, p, reason, date);
    if r.Done? && r.value != t {
      var t' := r.value;
      assert PaymentPosted(t, p);
      RowsStayExplained(t, t');
      forall q | 0 <= q < |t'.payments| ensures PaymentPosted(t', q) { assert PaymentPosted(t, q); }
    }
  }

  lemma OpenPosts(t: Tables, supplier: int, amount: int, date: Option<int>)
    requires Posted(t)
    ensures var r := LoadSupplierOpening(t, supplier, amount, date); r.Done? ==> Posted(r.value)
  {
    var r := LoadSupplierOpening(t, supplier, amount, date);
    if r.Done? {
      RowsStayExplained(t, r.value);
      forall p | 0 <= p < |r.value.payments| ensures PaymentPosted(r.value, p) { assert PaymentPosted(t, p); }
    }
  }

  lemma ReceivePosts(t: Tables, o: nat, date: Option<int>, raw: seq<RawLine>, tolerance: int)
    requires Posted(t) && o < |t.orders|
    ensures var r := CreateGoodsReceipt(t, o, date, raw, tolerance); r.Done? ==> Posted(r.value)
  {
    var r := CreateGoodsReceipt(t, o, date, raw, tolerance);
    if r.Done? {
      var t' := r.value;
      ReceiptShape(t, o, date, raw, tolerance);
      RowsStayExplained(t, t');
      forall p | 0 <= p < |t'.payments| ensures PaymentPosted(t', p) { assert PaymentPosted(t, p); }
    }
  }

  // ------------------------------------------------------------------ the derived balance

  function SupplierAmount(s: int): SupplierRow -> int { (r: SupplierRow) => if r.supplier == s then r.entry.amount else 0 }
  function OpeningAmount(s: int): SupplierRow -> int { (r: SupplierRow) => if IsOpening(r, s) then r.entry.amount else 0 }
  function PayableAmount(s: int): SupplierRow -> int {
    (r: SupplierRow) => if r.supplier == s && r.entry.kind == GOODS_RECEIPT then r.entry.amount else 0
  }
  function ReceiptWorth(s: int): Receipt -> int { (r: Receipt) => if r.supplier == s then r.totals.total else 0 }
  function PaymentWorth(s: int): Payment -> int { (p: Payment) => if p.payload.supplier == s && !p.reversed then p.payload.amount else 0 }

  /** What is owed is the opening, plus every receipt's total, less every payment that stands; and the receipts alone make up the payables. */
  predicate Balanced(t: Tables, s: int) {
    && SumOf(SupplierAmount(s), t.ledger)
       == SumOf(OpeningAmount(s), t.ledger) + SumOf(ReceiptWorth(s), t.receipts) - SumOf(PaymentWorth(s), t.payments)
    && SumOf(PayableAmount(s), t.ledger) == SumOf(ReceiptWorth(s), t.receipts)
  }

  /** One row more, with the receipts and payments it accounts for. */
  lemma RowBalances(t: Tables, t': Tables, row: SupplierRow, s: int)
    requires Balanced(t, s) && t'.ledger == t.ledger + [row]
    requires SumOf(ReceiptWorth(s), t'.receipts) == SumOf(ReceiptWorth(s), t.receipts) + PayableAmount(s)(row)
    requires SumOf(PaymentWorth(s), t'.payments)
          == SumOf(PaymentWorth(s), t.payments) - SupplierAmount(s)(row) + OpeningAmount(s)(row) + PayableAmount(s)(row)
    ensures Balanced(t', s)
  {
    SumOfSnoc(SupplierAmount(s), t.ledger, row);
    SumOfSnoc(OpeningAmount(s), t.ledger, row);
    SumOfSnoc(PayableAmount(s), t.ledger, row);
  }

  lemma PayBalances(t: Tables, submission: Option<int>, dated: bool, payload: Payload, s: int)
    requires Balanced(t, s)
    ensures var r := RecordSupplierPayment(t, submission, dated, payload); r.Done? ==> Balanced(r.value, s)
  {
    var r := RecordSupplierPayment(t, submission, dated, payload);
    if r.Done? && r.value != t {
      var t' := r.value;
      SumOfSnoc(PaymentWorth(s), t.payments, t'.payments[|t.payments|]);
      RowBalances(t, t', t'.ledger[|t.ledger|], s);
    }
  }

  lemma ReverseBalances(t: Tables, p: nat, reason: string, date: Option<int>, s: int)
    requires Balanced(t, s) && p < |t.payments|
    ensures var r := ReverseSupplierPayment(t, p, reason, date); r.Done? ==> Balanced(r.value, s)
  {
    var r := ReverseSupplierPayment(t, p, reason, date);
    if r.Done? && r.value != t {
      var t' := r.value;
      SumOfUpdate(PaymentWorth(s), t.payments, p, t'.payments[p]);
      RowBalances(t, t', t'.ledger[|t.ledger|], s);
    }
  }

  lemma OpenBalances(t: Tables, supplier: int, amount: int, date: Option<int>, s: int)
    requires Balanced(t, s)
    ensures var r := LoadSupplierOpening(t, supplier, amount, date); r.Done? ==> Balanced(r.value, s)
  {
    var r := LoadSupplierOpening(t, supplier, amount, date);
    if r.Done? { RowBalances(t, r.value, r.value.ledger[|t.ledger|], s); }
  }

  lemma MoneyBalances(t: Tables, a: Action, tolerance: int, s: int)
    requires Balanced(t, s) && (a.Pay? || a.Reverse? || a.Open?)
    ensures Balanced(Next(t, a, tolerance), s)
  {
    match a {
      case Pay(submission, dated, payload) => PayBalances(t, submission, dated, payload, s);
      case Reverse(p, reason, date) => if p < |t.payments| { ReverseBalances(t, p, reason, date, s); }
      case Open(supplier, amount, date) => OpenBalances(t, supplier, amount, date, s);
    }
  }

  /** The receipt and its payable, or a receipt worth nothing and no payable. */
  lemma PostingBalances(t: Tables, o: nat, date: int, lines: seq<ReceiptLine>, s: int)
    requires Balanced(t, s) && o < |t.orders|
    ensures var r := PostReceipt(t, o, date, lines); r.Done? ==> Balanced(r.value, s)
  {
    var r := PostReceipt(t, o, date, lines);
    if r.Done? {
      var t' := r.value;
      SumOfSnoc(ReceiptWorth(s), t.receipts, t'.receipts[|t.receipts|]);
      if t'.ledger != t.ledger { RowBalances(t, t', t'.ledger[|t.ledger|], s); }
    }
  }

  lemma ReceiveBalances(t: Tables, o: nat, date: Option<int>, raw: seq<RawLine>, tolerance: int, s: int)
    requires Balanced(t, s) && o < |t.orders|
    ensures var r := CreateGoodsReceipt(t, o, date, raw, tolerance); r.Done? ==> Balanced(r.value, s)
  {
    var r := CreateGoodsReceipt(t, o, date, raw, tolerance);
    if r.Done? {
      ReceiptShape(t, o, date, raw, tolerance);
      PostingBalances(t, o, date.value, PriceReceiptLines(t, o, raw, tolerance).value, s);
    }
  }

  // ------------------------------------------------------------------ every run

  ghost predicate Accounted(t: Tables, tolerance: int) {
    Arrives(t, tolerance) && Stocked(t) && Posted(t) && forall s :: Balanced(t, s)
  }

  lemma ReceiveAccounted(t: Tables, o: nat, date: Option<int>, raw: seq<RawLine>, tolerance: int)
    requires Accounted(t, tolerance) && o < |t.orders|
    ensures var r := CreateGoodsReceipt(t, o, date, raw, tolerance); r.Done? ==> Accounted(r.value, tolerance)
  {
    var r := CreateGoodsReceipt(t, o, date, raw, tolerance);
    if r.Done? {
      ReceiveArrives(t, o, date, raw, tolerance);
      ReceivePosts(t, o, date, raw, tolerance);
      forall s ensures Balanced(r.value, s) { ReceiveBalances(t, o, date, raw, tolerance, s); }
      ReceiptShape(t, o, date, raw, tolerance);
      assert OrderArrives(t, o, tolerance);
      PricedWithinLimit(t, o, raw, tolerance, 0);
      ReceivingStocks(t, r.value, o, PriceReceiptLines(t, o, raw, tolerance).value);
    }
  }

  lemma MoneyAccounted(t: Tables, a: Action, tolerance: int)
    requires Accounted(t, tolerance) && (a.Pay? || a.Reverse? || a.Open?)
    ensures Accounted(Next(t, a, tolerance), tolerance)
  {
    var t' := Next(t, a, tolerance);
    MoneyStepArrives(t, a, tolerance);
    forall s ensures Balanced(t', s) { MoneyBalances(t, a, tolerance, s); }
    match a {
      case Pay(submission, dated, payload) => PayPosts(t, submission, dated, payload);
      case Reverse(p, reason, date) => if p < |t.payments| { ReversePosts(t, p, reason, date); }
      case Open(supplier, amount, date) => OpenPosts(t, supplier, amount, date);
    }
    assert t'.stock == t.stock && t'.receipts == t.receipts;
    forall r | 0 <= r < |t'.receipts| ensures StockAgrees(t', r) { assert StockAgrees(t, r); }
  }

  /** Writing orders touches no receipt, movement, payment or ledger row. */
  lemma OrdersAccounted(t: Tables, t': Tables, tolerance: int)
    requires Accounted(t, tolerance) && Arrives(t', tolerance) && t' == t.(orders := t'.orders)
    ensures Accounted(t', tolerance)
  {
    forall r | 0 <= r < |t'.receipts| ensures StockAgrees(t', r) { assert StockAgrees(t, r); }
    forall k | 0 <= k < |t'.ledger| ensures Explained(t', k) { assert Explained(t, k); }
    forall p | 0 <= p < |t'.payments| ensures PaymentPosted(t', p) { assert PaymentPosted(t, p); }
    forall s ensures Balanced(t', s) { assert Balanced(t, s); }
  }

  lemma NextAccounted(t: Tables, a: Action, tolerance: int)
    requires Accounted(t, tolerance) && tolerance >= 0 && Sane(a)
    ensures Accounted(Next(t, a, tolerance), tolerance)
  {
    var t' := Next(t, a, tolerance);
    match a
    case Create(supplier, active, orderDate, expected, raw) =>
      CreateArrives(t, supplier, active, orderDate, expected, raw, tolerance);
      OrdersAccounted(t, t', tolerance);
    case Amend(o, rescheduled, raw) =>
      if o < |t.orders| { AmendArrives(t, o, rescheduled, raw, tolerance); }
      OrdersAccounted(t, t', tolerance);
    case Issue(o) =>
      if o < |t.orders| { StatusArrives(t, o, ISSUED, tolerance); }
      OrdersAccounted(t, t', tolerance);
    case Cancel(o, reason) =>
      if o < |t.orders| { StatusArrives(t, o, CANCELLED, tolerance); }
      OrdersAccounted(t, t', tolerance);
    case Close(o, reason) =>
      if o < |t.orders| { StatusArrives(t, o, CLOSED, tolerance); }
      OrdersAccounted(t, t', tolerance);
    case Receive(o, date, lines) => if o < |t.orders| { ReceiveAccounted(t, o, date, lines, tolerance); }
    case _ => MoneyAccounted(t, a, tolerance);
  }

  /**
   Over every serial run at one tolerance: nothing is received above a line's ceiling, a status says
   RECEIVED exactly when everything ordered came, stock gained is what was received, payables are the
   receipts' totals, and what is owed is opening plus receipts less the payments that stand.
   */
  lemma {:induction false} EveryRunIsAccounted(actions: seq<Action>, tolerance: int)
    requires AllSane(actions) && tolerance >= 0
    ensures Accounted(Run(Empty, actions, tolerance), tolerance)
  {
    if |actions| != 0 {
      EveryRunIsAccounted(actions[..|actions| - 1], tolerance);
      NextAccounted(Run(Empty, actions[..|actions| - 1], tolerance), actions[|actions| - 1], tolerance);
    }
  }

  /** So no line of any order ever has more than its tolerance: and without a tolerance, never more than was ordered. */
  lemma NeverAboveTheTolerance(actions: seq<Action>, tolerance: int, o: nat, l: nat)
    requires AllSane(actions) && tolerance >= 0
    requires o < |Run(Empty, actions, tolerance).orders| && l < |Run(Empty, actions, tolerance).orders[o].lines|
    ensures
      var t := Run(Empty, actions, tolerance);
      var (received, ordered) := (ReceivedQuantity(t.receipts, o, l), t.orders[o].lines[l].ordered);
      && 20000 * received <= 2 * (ordered * (10000 + tolerance)) + 10000
      && (tolerance == 0 ==> received <= ordered)
  {
    EveryRunIsAccounted(actions, tolerance);
    WithinTolerance(Run(Empty, actions, tolerance), o, l, tolerance);
  }

  lemma WithinTolerance(t: Tables, o: nat, l: nat, tolerance: int)
    requires Arrives(t, tolerance) && tolerance >= 0 && o < |t.orders| && l < |t.orders[o].lines|
    ensures
      var (received, ordered) := (ReceivedQuantity(t.receipts, o, l), t.orders[o].lines[l].ordered);
      && 20000 * received <= 2 * (ordered * (10000 + tolerance)) + 10000
      && (tolerance == 0 ==> received <= ordered)
  {
    assert OrderArrives(t, o, tolerance) && Agreed(t.orders[o].lines[l]);
    ProductIsNatural(t.orders[o].lines[l].ordered, 10000 + tolerance);
  }

  // ------------------------------------------------------------------ one row a posting

  predicate Charges(r: SupplierRow, supplier: int, kind: Code, amount: int, date: Option<int>, sourceType: Code, sourceId: Option<int>) {
    && r.supplier == supplier && r.entry.kind == kind && r.entry.amount == amount && Some(r.entry.date) == date
    && r.entry.sourceType == sourceType && r.entry.sourceId == sourceId
  }

  /** The row a request posts to the supplier ledger, of the party and the day it states. */
  predicate PostedFor(t: Tables, a: Action, t': Tables, r: SupplierRow) {
    match a
    case Receive(o, date, _) =>
      && o < |t.orders| && |t'.receipts| == |t.receipts| + 1
      && Charges(r, t.orders[o].supplier, GOODS_RECEIPT, t'.receipts[|t.receipts|].totals.total, date, GOODS_RECEIPT, Some(|t.receipts| + 1))
    case Pay(_, _, payload) => Charges(r, payload.supplier, PAYMENT, -payload.amount, Some(payload.date), PAYMENT, Some(|t.payments| + 1))
    case Reverse(p, _, date) =>
      p < |t.payments| && Charges(r, t.payments[p].payload.supplier, ADJUSTMENT, t.payments[p].payload.amount, date, PAYMENT, Some(p + 1))
    case Open(supplier, amount, date) => Charges(r, supplier, OPENING, amount, date, BLANK, None)
    case _ => false
  }

  /** Whatever changes the supplier ledger adds one row to it, of the party, the day and the document asked for. */
  lemma EveryPostingIsOneRow(t: Tables, a: Action, tolerance: int)
    ensures
      var t' := Next(t, a, tolerance);
      t'.ledger == t.ledger
      || (|t'.ledger| == |t.ledger| + 1 && t'.ledger == t.ledger + [t'.ledger[|t.ledger|]] && PostedFor(t, a, t', t'.ledger[|t.ledger|]))
  {
    if a.Receive? && a.order < |t.orders| { ReceiptShape(t, a.order, a.date, a.lines, tolerance); }
  }

  /** Money reaches or leaves a supplier's account exactly when the request is whole and not yet served. */
  lemma MoneyMovesExactlyWhen(t: Tables, a: Action, tolerance: int)
    requires Posted(t) && (a.Pay? || a.Reverse? || a.Open?)
    ensures Next(t, a, tolerance) != t
            <==> match a
                 case Pay(submission, dated, payload) =>
                   && submission.Some? && dated && !payload.means.UnknownMethod? && payload.amount > 0
                   && forall p :: 0 <= p < |t.payments| ==> t.payments[p].submission != submission.value
                 case Reverse(p, reason, date) => p < |t.payments| && reason != "" && date.Some? && !t.payments[p].reversed
                 case Open(supplier, amount, date) =>
                   date.Some? && amount != 0 && forall k :: 0 <= k < |t.ledger| ==> t.ledger[k].supplier != supplier || t.ledger[k].entry.kind != OPENING
                 case _ => false
  {
    if a.Pay? && a.submission.Some? {
      forall p | 0 <= p < |t.payments| && IndexWhere(SubmittedAs(a.submission.value), t.payments) < 0
        ensures t.payments[p].submission != a.submission.value
      {
        assert !SubmittedAs(a.submission.value)(t.payments[p]);
      }
    }
    if a.Reverse? && a.payment < |t.payments| { assert PaymentPosted(t, a.payment) && Explained(t, t.payments[a.payment].entry); }
  }

  // ------------------------------------------------------------------ replayed forms

  /** Which payments exist, and under which form, never changes. */
  ghost predicate KeepsPayments(t: Tables, later: Tables) {
    && |t.payments| <= |later.payments|
    && forall p :: 0 <= p < |t.payments| ==>
         && later.payments[p].submission == t.payments[p].submission && later.payments[p].payload == t.payments[p].payload
         && (t.payments[p].reversed ==> later.payments[p].reversed)
  }

  lemma NextKeepsPayments(t: Tables, a: Action, tolerance: int)
    ensures KeepsPayments(t, Next(t, a, tolerance))
  {
    if a.Receive? && a.order < |t.orders| { ReceiptShape(t, a.order, a.date, a.lines, tolerance); }
  }

  lemma {:induction false} RunKeepsPayments(t: Tables, actions: seq<Action>, tolerance: int)
    ensures KeepsPayments(t, Run(t, actions, tolerance))
  {
    if |actions| != 0 {
      RunKeepsPayments(t, actions[..|actions| - 1], tolerance);
      NextKeepsPayments(Run(t, actions[..|actions| - 1], tolerance), actions[|actions| - 1], tolerance);
    }
  }

  /**
   A form submitted once is that payment for good. Submitted again, after anything else has happened,
   it changes nothing; it succeeds exactly when every field is as before, and is refused otherwise.
   */
  lemma ReplayedForms(t: Tables, submission: int, payload: Payload, actions: seq<Action>, tolerance: int, again: Payload)
    requires RecordSupplierPayment(t, Some(submission), true, payload).Done?
    requires !again.means.UnknownMethod? && again.amount > 0
    ensures
      var later := Run(Next(t, Pay(Some(submission), true, payload), tolerance), actions, tolerance);
      RecordSupplierPayment(later, Some(submission), true, again) == if again == payload then Done(later) else Refused(VALIDATION_FAILED)
  {
    var once := Next(t, Pay(Some(submission), true, payload), tolerance);
    var later := Run(once, actions, tolerance);
    var p := if IndexWhere(SubmittedAs(submission), t.payments) >= 0 then IndexWhere(SubmittedAs(submission), t.payments) else |t.payments|;
    assert once.payments[p].submission == submission && once.payments[p].payload == payload;
    RunKeepsPayments(once, actions, tolerance);
    assert SubmittedAs(submission)(later.payments[p]);
    assert forall q :: 0 <= q < p ==> !SubmittedAs(submission)(t.payments[q]);
    assert forall q :: 0 <= q < p ==> later.payments[q].submission == t.payments[q].submission;
    assert IndexWhere(SubmittedAs(submission), later.payments) == p;
  }

  /** A payment is compensated at most once, however often and whenever its reversal is sent. */
  lemma ReversedOnce(t: Tables, p: nat, reason: string, date: Option<int>, actions: seq<Action>, tolerance: int)
    requires p < |t.payments| && ReverseSupplierPayment(t, p, reason, date).Done?
    ensures var later := Run(Next(t, Reverse(p, reason, date), tolerance), actions, tolerance);
            p < |later.payments| && ReverseSupplierPayment(later, p, reason, date) == Done(later)
  {
    var once := Next(t, Reverse(p, reason, date), tolerance);
    RunKeepsPayments(once, actions, tolerance);
  }

  // ------------------------------------------------------------------ why the registry spells it PAYMENT

  const SupplierPolicy: WalkPolicy := WalkPolicy(ADJUSTMENT, [GOODS_RECEIPT, PAYMENT], DEBIT_NOTE, GOODS_RECEIPT)

  /** The entry a payment posts and the one its reversal posts, under a given source type. */
  function PaymentEntry(pk: int, date: int, amount: int, registered: Code, id: int): Entry {
    Entry(pk, date, PAYMENT, -amount, "Payment", registered, Some(id))
  }

  function ReversalEntry(pk: int, date: int, amount: int, registered: Code, id: int): Entry {
    Entry(pk, date, ADJUSTMENT, amount, "Reversal of payment", registered, Some(id))
  }

  /**
   Wherever a supplier payment and its reversal fall, the walk is as if neither had been written
   exactly when the document is registered as PAYMENT; any other spelling, such as SUPPLIER_PAYMENT,
   leaves the pair in the walk.
   */
  lemma ReversalNeedsTheSpelling(es: seq<Entry>, registered: Code, id: int, amount: int,
                                 pk: int, date: int, i: nat, pk': int, date': int, j: nat)
    requires i <= |es| && j <= |es| + 1 && pk != pk' && FreshKey(es, pk) && FreshKey(es, pk')
    requires FreshDocument(es, PaymentEntry(pk, date, amount, registered, id))
    ensures
      var (p, a) := (PaymentEntry(pk, date, amount, registered, id), ReversalEntry(pk', date', amount, registered, id));
      Live(WithPair(es, p, i, a, j), SupplierPolicy) == Live(es, SupplierPolicy) <==> registered == PAYMENT
  {
    var p, a := PaymentEntry(pk, date, amount, registered, id), ReversalEntry(pk', date', amount, registered, id);
    LiveWithPair(es, SupplierPolicy, p, i, a, j);
    assert PAYMENT in SupplierPolicy.annullable;
  }

  /** The rows the services actually write are of that form. */
  lemma PostedPairsMatch(t: Tables, p: nat)
    requires Posted(t) && p < |t.payments| && t.payments[p].reversed
    ensures PaymentPosted(t, p)
    ensures
      var (entry, offset) := (t.ledger[t.payments[p].entry].entry, t.ledger[t.payments[p].reversalEntry.value].entry);
      Matches(SupplierPolicy, entry, offset) && SameDocument(entry, offset) && offset.kind == SupplierPolicy.adjustmentType && entry.pk != offset.pk
  {
    assert PaymentPosted(t, p);
    assert Explained(t, t.payments[p].entry) && Explained(t, t.payments[p].reversalEntry.value);
    assert PAYMENT in SupplierPolicy.annullable;
  }
}
