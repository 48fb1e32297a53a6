/**
 Orders and books together: what a customer is exposed for, and where each order's value is counted.
 */
module Exposure {
  import opened Outcomes
  import opened Sums
  import opened Querysets
  import opened Pricing
  import opened Documents
  import opened Vocabulary
  import opened Receivables
  import Numbering
  import T = Trade
  import opened Books
  import L = BooksLaws
  import W = BooksWalk

  datatype System = System(trade: T.Tables, books: Ledgers)

  /** Everything that happens: an order or delivery step, an invoice for an order, or any other posting. */
  datatype Action =
    | InTrade(step: T.Action)
    | InvoiceOrder(order: nat, intraState: bool, on: Numbering.Day, uuid: Option<Uuid>)
    | InBooks(posting: L.Action)

  predicate Sane(a: Action) {
    match a
    case InTrade(step) => T.Sane(step)
    case InvoiceOrder(_, _, _, _) => true
    case InBooks(posting) => L.Sane(posting) && !posting.Issue?
  }

  /** The order as it stands when the invoice is issued: the row, never the caller's copy of it. */
  function SaleOf(t: T.Tables, o: nat): Sale
    requires o < |t.orders|
  {
    Sale(o + 1, t.orders[o].customer, T.Left(t.orders[o].status), t.orders[o].lines)
  }

  function Next(s: System, a: Action): System
    requires Sane(a)
  {
    match a
    case InTrade(step) => s.(trade := T.Next(s.trade, step))
    case InBooks(posting) => s.(books := L.Next(s.books, posting))
    case InvoiceOrder(o, intraState, on, uuid) =>
      if o < |s.trade.orders| && IssueInvoice(s.books, SaleOf(s.trade, o), intraState, on, uuid).Done?
      then s.(books := IssueInvoice(s.books, SaleOf(s.trade, o), intraState, on, uuid).value)
      else s
  }

  predicate AllSane(actions: seq<Action>) { forall i :: 0 <= i < |actions| ==> Sane(actions[i]) }

  function Run(s: System, actions: seq<Action>): System
    requires AllSane(actions)
  {
    if |actions| == 0 then s else Next(Run(s, actions[..|actions| - 1]), actions[|actions| - 1])
  }

  const Nothing := System(T.Empty, EmptyBooks)

  // ------------------------------------------------------------------ exposure

  predicate LiveOrder(status: T.OrderStatus) { status != T.CANCELLED }

  predicate InvoiceRowFor(r: Row, c: int, order: int) {
    r.customerId == c && r.entry.kind == INVOICE && r.salesOrder == Some(order)
  }

  /** The order has reached its customer's ledger. */
  predicate SettledOrder(ledger: seq<Row>, c: int, order: int) { exists k :: 0 <= k < |ledger| && InvoiceRowFor(ledger[k], c, order) }

  function OpenTerm(o: T.Order, id: int, ledger: seq<Row>, c: int): int {
    if o.customer == c && LiveOrder(o.status) && !SettledOrder(ledger, c, id) then o.totals.total else 0
  }

  /** Live orders agreed and not yet billed, among the first `n`. */
  function OpenOrderValue(orders: seq<T.Order>, ledger: seq<Row>, c: int, n: nat): int
    requires n <= |orders|
  {
    if n == 0 then 0 else OpenOrderValue(orders, ledger, c, n - 1) + OpenTerm(orders[n - 1], n, ledger, c)
  }

  /** Billed balance plus open orders. */
  function CreditExposure(s: System, c: int): int {
    SumOf(L.CustomerAmount(c), s.books.ledger) + OpenOrderValue(s.trade.orders, s.books.ledger, c, |s.trade.orders|)
  }

  // ------------------------------------------------------------------ the joint invariant

  /** An invoice belongs to an order whose goods have left, and carries that order's figures. */
  ghost predicate Bills(invoice: Invoice, orders: seq<T.Order>) {
    && 0 < invoice.order <= |orders|
    && var o := orders[invoice.order - 1];
       o.customer == invoice.customer && T.Left(o.status) && W.Documented(invoice, o.lines)
  }

  ghost predicate Linked(s: System) {
    && T.Valid(s.trade) && Sound(s.books)
    && forall i :: 0 <= i < |s.books.invoices| ==> Bills(s.books.invoices[i], s.trade.orders)
  }

  lemma BilledOrdersStay(invoice: Invoice, t: T.Tables, step: T.Action)
    requires Bills(invoice, t.orders)
    ensures Bills(invoice, T.Next(t, step).orders)
  {
    T.StepKeepsFrozen(t, step, invoice.order - 1);
  }

  lemma TradeKeepsLinks(s: System, step: T.Action)
    requires Linked(s) && T.Sane(step)
    ensures Linked(Next(s, InTrade(step)))
  {
    T.NextValid(s.trade, step);
    forall i | 0 <= i < |s.books.invoices| ensures Bills(s.books.invoices[i], T.Next(s.trade, step).orders) {
      BilledOrdersStay(s.books.invoices[i], s.trade, step);
    }
  }

  lemma PostingsKeepLinks(s: System, posting: L.Action)
    requires Linked(s) && L.Sane(posting) && !posting.Issue?
    ensures Linked(Next(s, InBooks(posting)))
  {
    L.NextSound(s.books, posting);
    PostingsKeepInvoices(s.books, posting);
    var b' := L.Next(s.books, posting);
    forall i | 0 <= i < |b'.invoices| ensures Bills(b'.invoices[i], s.trade.orders) {
      assert Bills(s.books.invoices[i], s.trade.orders);
    }
  }

  /** Only issuing adds an invoice, and nothing rewrites one. */
  lemma PostingsKeepInvoices(b: Ledgers, posting: L.Action)
    requires L.Sane(posting) && !posting.Issue?
    ensures var b' := L.Next(b, posting);
            && |b'.invoices| == |b.invoices|
            && forall i :: 0 <= i < |b.invoices| ==>
                 var (x, y) := (b.invoices[i], b'.invoices[i]);
                 y.order == x.order && y.customer == x.customer && y.header == x.header && y.lines == x.lines && y.intraState == x.intraState
  {
    if posting.Credit? && posting.invoice < |b.invoices| {
      L.CreditAddsNote(b, posting.invoice, posting.requests, posting.reason, posting.on, posting.uuid);
    }
  }

  lemma OrdersArePriced(t: T.Tables, o: nat)
    requires T.Valid(t) && o < |t.orders|
    ensures forall i :: 0 <= i < |t.orders[o].lines| ==> Priced(t.orders[o].lines[i])
    ensures t.orders[o].totals == TotalsOf(t.orders[o].lines)
  {
    assert T.Priceable(t.orders[o]);
  }

  /** A new invoice bills the order it was issued for, and the others go on billing theirs. */
  lemma InvoicesStillBill(b: Ledgers, b': Ledgers, orders: seq<T.Order>)
    requires L.AddsInvoice(b, b') && Bills(b'.invoices[|b.invoices|], orders)
    requires forall i :: 0 <= i < |b.invoices| ==> Bills(b.invoices[i], orders)
    ensures forall i :: 0 <= i < |b'.invoices| ==> Bills(b'.invoices[i], orders)
  {
    forall i | 0 <= i < |b'.invoices| ensures Bills(b'.invoices[i], orders) {
      if i < |b.invoices| { assert b'.invoices[i] == b.invoices[i]; }
    }
  }

  lemma NewInvoiceBills(t: T.Tables, b: Ledgers, o: nat, intraState: bool, on: Numbering.Day, uuid: Option<Uuid>)
    requires o < |t.orders| && AllPriced(t.orders[o].lines)
    requires var r := IssueInvoice(b, SaleOf(t, o), intraState, on, uuid); r.Done? && r.value != b
    ensures var b' := IssueInvoice(b, SaleOf(t, o), intraState, on, uuid).value;
            L.AddsInvoice(b, b') && Bills(b'.invoices[|b.invoices|], t.orders)
  {
    L.IssueAddsInvoice(b, SaleOf(t, o), intraState, on, uuid);
  }

  lemma InvoicingKeepsLinks(s: System, o: nat, intraState: bool, on: Numbering.Day, uuid: Option<Uuid>)
    requires Linked(s)
    ensures Linked(Next(s, InvoiceOrder(o, intraState, on, uuid)))
  {
    var s' := Next(s, InvoiceOrder(o, intraState, on, uuid));
    if s' != s {
      OrdersArePriced(s.trade, o);
      L.IssueSound(s.books, SaleOf(s.trade, o), intraState, on, uuid);
      NewInvoiceBills(s.trade, s.books, o, intraState, on, uuid);
      InvoicesStillBill(s.books, s'.books, s.trade.orders);
    }
  }

  lemma NextLinked(s: System, a: Action)
    requires Linked(s) && Sane(a)
    ensures Linked(Next(s, a))
  {
    match a
    case InTrade(step) => TradeKeepsLinks(s, step);
    case InBooks(posting) => PostingsKeepLinks(s, posting);
    case InvoiceOrder(o, intraState, on, uuid) => InvoicingKeepsLinks(s, o, intraState, on, uuid);
  }

  lemma {:induction false} RunLinked(s: System, actions: seq<Action>)
    requires Linked(s) && AllSane(actions)
    ensures Linked(Run(s, actions))
  {
    if |actions| != 0 {
      RunLinked(s, actions[..|actions| - 1]);
      NextLinked(Run(s, actions[..|actions| - 1]), actions[|actions| - 1]);
    }
  }

  lemma EveryRunIsLinked(actions: seq<Action>)
    requires AllSane(actions)
    ensures Linked(Run(Nothing, actions))
  {
    RunLinked(Nothing, actions);
  }

  // ------------------------------------------------------------------ each order counts once

  /** An order is in the ledger exactly when it has an invoice, through the one row that invoice posted. */
  lemma SettledMeansInvoiced(s: System, o: nat, k: nat)
    requires Linked(s) && o < |s.trade.orders| && k < |s.books.ledger|
    ensures InvoiceRowFor(s.books.ledger[k], s.trade.orders[o].customer, o + 1)
            <==> exists i :: 0 <= i < |s.books.invoices| && s.books.invoices[i].order == o + 1 && s.books.invoices[i].entry == k
  {
    assert Explained(s.books, k);
    if InvoiceRowFor(s.books.ledger[k], s.trade.orders[o].customer, o + 1) {
      var i := s.books.ledger[k].entry.sourceId.value - 1;
      assert s.books.invoices[i].order == o + 1 && s.books.invoices[i].entry == k;
    }
    if i :| 0 <= i < |s.books.invoices| && s.books.invoices[i].order == o + 1 && s.books.invoices[i].entry == k {
      assert InvoicePosted(s.books, i) && Bills(s.books.invoices[i], s.trade.orders);
      RowOfInvoice(s.books, i);
    }
  }

  lemma RowOfInvoice(b: Ledgers, i: nat)
    requires i < |b.invoices| && InvoicePosted(b, i) && Explained(b, b.invoices[i].entry)
    ensures InvoiceRowFor(b.ledger[b.invoices[i].entry], b.invoices[i].customer, b.invoices[i].order)
  {
  }

  /** The row that settles an order carries the order's total and the invoice's round-off. */
  lemma SettlingRow(s: System, o: nat, k: nat)
    requires Linked(s) && o < |s.trade.orders| && k < |s.books.ledger|
    requires InvoiceRowFor(s.books.ledger[k], s.trade.orders[o].customer, o + 1)
    ensures -50 < s.books.ledger[k].entry.amount - s.trade.orders[o].totals.total <= 50
  {
    SettledMeansInvoiced(s, o, k);
    var i :| 0 <= i < |s.books.invoices| && s.books.invoices[i].order == o + 1 && s.books.invoices[i].entry == k;
    InvoiceNearOrder(s, i);
    assert InvoicePosted(s.books, i) && Explained(s.books, k);
  }

  /** An invoice's total is its order's, give or take the round-off. */
  lemma InvoiceNearOrder(s: System, i: nat)
    requires Linked(s) && i < |s.books.invoices|
    ensures var invoice := s.books.invoices[i];
            0 < invoice.order <= |s.trade.orders| && -50 < invoice.header.total - s.trade.orders[invoice.order - 1].totals.total <= 50
  {
    var invoice := s.books.invoices[i];
    assert Bills(invoice, s.trade.orders);
    OrdersArePriced(s.trade, invoice.order - 1);
    InvoiceReconciles(s.trade.orders[invoice.order - 1].lines, invoice.intraState);
  }

  lemma OneSettlingRow(s: System, o: nat, k: nat, l: nat)
    requires Linked(s) && o < |s.trade.orders| && k < |s.books.ledger| && l < |s.books.ledger|
    requires InvoiceRowFor(s.books.ledger[k], s.trade.orders[o].customer, o + 1)
    requires InvoiceRowFor(s.books.ledger[l], s.trade.orders[o].customer, o + 1)
    ensures k == l
  {
    SettledMeansInvoiced(s, o, k);
    SettledMeansInvoiced(s, o, l);
    assert Unique(s.books);
  }

  /** Row `k`, and no other, is the INVOICE row of order `o`, at its total give or take half a rupee. */
  ghost predicate SettledBy(s: System, o: nat, k: int)
    requires o < |s.trade.orders|
  {
    var (order, ledger) := (s.trade.orders[o], s.books.ledger);
    && 0 <= k < |ledger| && InvoiceRowFor(ledger[k], order.customer, o + 1)
    && -50 < ledger[k].entry.amount - order.totals.total <= 50
    && forall l :: 0 <= l < |ledger| && InvoiceRowFor(ledger[l], order.customer, o + 1) ==> l == k
  }

  /** An order that has an invoice, cancelled or not, has exactly one INVOICE row; one that has none has no such row. */
  lemma OneRowSettles(s: System, o: nat)
    requires Linked(s) && o < |s.trade.orders|
    ensures
      var invoiced := IndexWhere(InvoiceOf(o + 1), s.books.invoices) >= 0;
      && (SettledOrder(s.books.ledger, s.trade.orders[o].customer, o + 1) <==> invoiced)
      && (invoiced ==> exists k :: SettledBy(s, o, k))
  {
    var c, ledger, i := s.trade.orders[o].customer, s.books.ledger, IndexWhere(InvoiceOf(o + 1), s.books.invoices);
    if i >= 0 {
      assert s.books.invoices[i].order == o + 1 && InvoicePosted(s.books, i);
      var k := s.books.invoices[i].entry;
      SettledMeansInvoiced(s, o, k);
      SettlingRow(s, o, k);
      forall l | 0 <= l < |ledger| && InvoiceRowFor(ledger[l], c, o + 1) ensures l == k { OneSettlingRow(s, o, k, l); }
      assert SettledBy(s, o, k);
    } else {
      NotYetSettled(s, o);
    }
  }

  // ------------------------------------------------------------------ what moves exposure

  /** A ledger row that names no order leaves the open term alone; one that does takes just that order out. */
  lemma {:induction false} OpenValueAfterRow(orders: seq<T.Order>, ledger: seq<Row>, row: Row, c: int, n: nat)
    requires n <= |orders|
    ensures
      var settles := row.customerId == c && row.entry.kind == INVOICE && row.salesOrder.Some? && 0 < row.salesOrder.value <= n;
      OpenOrderValue(orders, ledger + [row], c, n)
      == OpenOrderValue(orders, ledger, c, n) - if settles then OpenTerm(orders[row.salesOrder.value - 1], row.salesOrder.value, ledger, c) else 0
  {
    if n != 0 {
      OpenValueAfterRow(orders, ledger, row, c, n - 1);
      if SettledOrder(ledger, c, n) {
        var k :| 0 <= k < |ledger| && InvoiceRowFor(ledger[k], c, n);
        assert InvoiceRowFor((ledger + [row])[k], c, n);
      }
      if InvoiceRowFor(row, c, n) { assert InvoiceRowFor((ledger + [row])[|ledger|], c, n); }
    }
  }

  /** The new row enters the billed balance, and its order's value leaves the open term. */
  lemma ExposureAfterInvoice(s: System, b': Ledgers, o: nat, c: int)
    requires o < |s.trade.orders| && L.AddsInvoice(s.books, b') && b'.ledger[|s.books.ledger|].salesOrder == Some(o + 1)
    ensures
      var row := b'.ledger[|s.books.ledger|];
      CreditExposure(s.(books := b'), c)
      == CreditExposure(s, c)
         + if row.customerId == c then row.entry.amount - OpenTerm(s.trade.orders[o], o + 1, s.books.ledger, c) else 0
  {
    var row := b'.ledger[|s.books.ledger|];
    SumOfSnoc(L.CustomerAmount(c), s.books.ledger, row);
    OpenValueAfterRow(s.trade.orders, s.books.ledger, row, c, |s.trade.orders|);
  }

  /** What a newly issued invoice posts for its order. */
  lemma InvoiceRow(t: T.Tables, b: Ledgers, o: nat, intraState: bool, on: Numbering.Day, uuid: Option<Uuid>)
    requires o < |t.orders|
    requires var r := IssueInvoice(b, SaleOf(t, o), intraState, on, uuid); r.Done? && r.value != b
    ensures
      var b' := IssueInvoice(b, SaleOf(t, o), intraState, on, uuid).value;
      && L.AddsInvoice(b, b') && T.Left(t.orders[o].status) && IndexWhere(InvoiceOf(o + 1), b.invoices) < 0
      && var row := b'.ledger[|b.ledger|];
         && row.customerId == t.orders[o].customer && row.salesOrder == Some(o + 1)
         && row.entry.amount == InvoiceHeader(t.orders[o].lines, intraState).total
  {
    L.IssueAddsInvoice(b, SaleOf(t, o), intraState, on, uuid);
  }

  /** Issuing an invoice moves its order from one term to the other: exposure changes by the round-off and nothing else. */
  lemma InvoicingMovesOnlyTheRoundOff(s: System, o: nat, intraState: bool, on: Numbering.Day, uuid: Option<Uuid>, c: int)
    requires Linked(s) && o < |s.trade.orders|
    ensures
      var order, s' := s.trade.orders[o], Next(s, InvoiceOrder(o, intraState, on, uuid));
      var roundOff := InvoiceHeader(order.lines, intraState).roundOff;
      && (s' != s ==> CreditExposure(s', c) - CreditExposure(s, c) == (if c == order.customer then roundOff else 0))
      && -50 < roundOff <= 50
  {
    var order, s' := s.trade.orders[o], Next(s, InvoiceOrder(o, intraState, on, uuid));
    if s' != s {
      InvoiceRow(s.trade, s.books, o, intraState, on, uuid);
      ExposureAfterInvoice(s, s'.books, o, c);
      NotYetSettled(s, o);
    }
    OrdersArePriced(s.trade, o);
    InvoiceReconciles(order.lines, intraState);
  }

  /** An order without an invoice is still wholly in the open term. */
  lemma NotYetSettled(s: System, o: nat)
    requires Linked(s) && o < |s.trade.orders| && IndexWhere(InvoiceOf(o + 1), s.books.invoices) < 0
    ensures !SettledOrder(s.books.ledger, s.trade.orders[o].customer, o + 1)
  {
    forall i | 0 <= i < |s.books.invoices| ensures s.books.invoices[i].order != o + 1 {
      assert !InvoiceOf(o + 1)(s.books.invoices[i]);
    }
    forall k | 0 <= k < |s.books.ledger| ensures !InvoiceRowFor(s.books.ledger[k], s.trade.orders[o].customer, o + 1) {
      SettledMeansInvoiced(s, o, k);
    }
  }

  lemma {:induction false} SameOpenValue(before: seq<T.Order>, after: seq<T.Order>, ledger: seq<Row>, c: int, n: nat)
    requires n <= |before| && n <= |after|
    requires forall o :: 0 <= o < n ==>
               after[o].customer == before[o].customer && after[o].totals == before[o].totals && LiveOrder(after[o].status) == LiveOrder(before[o].status)
    ensures OpenOrderValue(after, ledger, c, n) == OpenOrderValue(before, ledger, c, n)
  {
    if n != 0 { SameOpenValue(before, after, ledger, c, n - 1); }
  }

  /** Confirming, assigning, dispatching, delivering, failing and moving stock change nobody's exposure. */
  lemma FulfilmentKeepsExposure(s: System, step: T.Action, c: int)
    requires step.ConfirmOrder? || step.AssignDelivery? || step.DispatchDelivery? || step.CompleteDelivery? || step.FailDelivery? || step.MoveStock?
    ensures CreditExposure(Next(s, InTrade(step)), c) == CreditExposure(s, c)
  {
    var after := T.Next(s.trade, step).orders;
    StatusesOnly(s.trade, step);
    SameOpenValue(s.trade.orders, after, s.books.ledger, c, |after|);
  }

  lemma StatusesOnly(t: T.Tables, step: T.Action)
    requires step.ConfirmOrder? || step.AssignDelivery? || step.DispatchDelivery? || step.CompleteDelivery? || step.FailDelivery? || step.MoveStock?
    ensures |T.Next(t, step).orders| == |t.orders|
    ensures forall o :: 0 <= o < |t.orders| ==>
              && T.Next(t, step).orders[o].customer == t.orders[o].customer && T.Next(t, step).orders[o].totals == t.orders[o].totals
              && LiveOrder(T.Next(t, step).orders[o].status) == LiveOrder(t.orders[o].status)
  {
  }

  lemma {:induction false} OpenValueWithout(before: seq<T.Order>, after: seq<T.Order>, ledger: seq<Row>, c: int, n: nat, o: nat)
    requires n <= |before| == |after| && o < |before|
    requires after == before[o := after[o]]
    ensures OpenOrderValue(after, ledger, c, n)
            == OpenOrderValue(before, ledger, c, n) + if o < n then OpenTerm(after[o], o + 1, ledger, c) - OpenTerm(before[o], o + 1, ledger, c) else 0
  {
    if n != 0 { OpenValueWithout(before, after, ledger, c, n - 1, o); }
  }

  /** Withdrawing an order takes exactly its total out of its customer's exposure: it was never in the ledger. */
  lemma WithdrawingReleasesTheTotal(s: System, o: nat, reason: string, c: int)
    requires Linked(s) && o < |s.trade.orders| && T.CancelOrder(s.trade, o, reason).Done?
    ensures CreditExposure(Next(s, InTrade(T.Withdraw(o, reason))), c) - CreditExposure(s, c)
            == if c == s.trade.orders[o].customer then -s.trade.orders[o].totals.total else 0
  {
    var after := T.Next(s.trade, T.Withdraw(o, reason)).orders;
    OpenValueWithout(s.trade.orders, after, s.books.ledger, c, |after|, o);
    forall i | 0 <= i < |s.books.invoices| ensures s.books.invoices[i].order != o + 1 {
      assert Bills(s.books.invoices[i], s.trade.orders);
    }
    assert IndexWhere(InvoiceOf(o + 1), s.books.invoices) < 0 by {
      var i := IndexWhere(InvoiceOf(o + 1), s.books.invoices);
    }
    NotYetSettled(s, o);
  }
}
