/**
 Where each order's value stands in its customer's credit exposure: in the open term until it is billed,
 then in its invoice, and nowhere once that invoice is cancelled.
 */
module ExposureLaws {
  import opened Outcomes
  import opened Sums
  import opened Querysets
  import Money
  import opened Pricing
  import opened Documents
  import opened Vocabulary
  import opened Receivables
  import Numbering
  import T = Trade
  import opened Books
  import L = BooksLaws
  import W = BooksWalk
  import opened Exposure

  /** The invoice of order `o`, by position, or -1. */
  function InvoiceFor(b: Ledgers, o: nat): int { IndexWhere(InvoiceOf(o + 1), b.invoices) }

  /** What an order weighs: its total until it is billed, its invoice while that stands, and then nothing. */
  function Carried(s: System, o: nat): int
    requires o < |s.trade.orders|
  {
    var i := InvoiceFor(s.books, o);
    if i >= 0 then (if s.books.invoices[i].status == ISSUED then s.books.invoices[i].header.total else 0)
    else if LiveOrder(s.trade.orders[o].status) then s.trade.orders[o].totals.total
    else 0
  }

  /** What the first `n` orders weigh for customer `c`. */
  function CarriedValue(s: System, c: int, n: nat): int
    requires n <= |s.trade.orders|
  {
    if n == 0 then 0 else CarriedValue(s, c, n - 1) + if s.trade.orders[n - 1].customer == c then Carried(s, n - 1) else 0
  }

  // ------------------------------------------------------------------ the partition of one order

  /**
   A live order weighs its total, give or take the invoice's round-off of at most half a rupee, exactly when
   its invoice is absent or uncancelled. Once the invoice is cancelled the order, goods out and all, weighs nothing.
   */
  lemma EachOrderCountsOnce(s: System, o: nat)
    requires Linked(s) && o < |s.trade.orders| && LiveOrder(s.trade.orders[o].status)
    ensures
      var (order, i) := (s.trade.orders[o], InvoiceFor(s.books, o));
      && (-50 < Carried(s, o) - order.totals.total <= 50 <==> i < 0 || s.books.invoices[i].status == ISSUED)
      && (i < 0 ==> Carried(s, o) == order.totals.total)
      && (i >= 0 ==> T.Left(order.status) && order.totals.total >= 50)
  {
    if InvoiceFor(s.books, o) >= 0 { InvoicedFor(s, o, InvoiceFor(s.books, o)); }
  }

  /** An order's invoice bills its total, give or take the round-off, and something. */
  lemma InvoicedFor(s: System, o: nat, i: nat)
    requires Linked(s) && o < |s.trade.orders| && i < |s.books.invoices| && s.books.invoices[i].order == o + 1
    ensures T.Left(s.trade.orders[o].status) && s.books.invoices[i].customer == s.trade.orders[o].customer
    ensures -50 < s.books.invoices[i].header.total - s.trade.orders[o].totals.total <= 50 && s.trade.orders[o].totals.total >= 50
  {
    assert Bills(s.books.invoices[i], s.trade.orders);
    W.InvoicesArePositive(s.books, i);
    OrdersArePriced(s.trade, o);
    InvoiceReconciles(s.trade.orders[o].lines, s.books.invoices[i].intraState);
  }

  // ------------------------------------------------------------------ the whole of a customer's exposure

  /** An invoice's worth to customer `c`, if it is the invoice of order number `id`. */
  function BilledFor(c: int, id: int): Invoice -> int { (i: Invoice) => if i.order == id then L.InvoiceWorth(c)(i) else 0 }

  function BilledValue(invoices: seq<Invoice>, c: int, n: nat): int {
    if n == 0 then 0 else BilledValue(invoices, c, n - 1) + SumOf(BilledFor(c, n), invoices)
  }

  lemma {:induction false} BilledSnoc(invoices: seq<Invoice>, x: Invoice, c: int, n: nat)
    ensures BilledValue(invoices + [x], c, n) == BilledValue(invoices, c, n) + if 0 < x.order <= n then L.InvoiceWorth(c)(x) else 0
  {
    if n != 0 {
      BilledSnoc(invoices, x, c, n - 1);
      SumOfSnoc(BilledFor(c, n), invoices, x);
    }
  }

  lemma {:induction false} NothingBilled(c: int, n: nat)
    ensures BilledValue([], c, n) == 0
  {
    if n != 0 { NothingBilled(c, n - 1); }
  }

  /** Summed order by order or invoice by invoice, what stands billed is the same. */
  lemma {:induction false} BilledByOrder(invoices: seq<Invoice>, c: int, n: nat)
    requires forall i :: 0 <= i < |invoices| ==> 0 < invoices[i].order <= n
    ensures BilledValue(invoices, c, n) == SumOf(L.InvoiceWorth(c), invoices)
  {
    if |invoices| == 0 {
      NothingBilled(c, n);
    } else {
      var front, last := invoices[..|invoices| - 1], invoices[|invoices| - 1];
      BilledByOrder(front, c, n);
      BilledSnoc(front, last, c, n);
      assert invoices == front + [last];
    }
  }

  /** An order has one invoice at most, so its billed value is that invoice's. */
  lemma {:induction false} OneInvoiceWorth(invoices: seq<Invoice>, c: int, id: int)
    requires forall i, j :: 0 <= i < j < |invoices| ==> invoices[i].order != invoices[j].order
    ensures var i := IndexWhere(InvoiceOf(id), invoices);
            SumOf(BilledFor(c, id), invoices) == if i >= 0 then L.InvoiceWorth(c)(invoices[i]) else 0
  {
    if |invoices| != 0 {
      var front := invoices[..|invoices| - 1];
      forall i, j | 0 <= i < j < |front| ensures front[i].order != front[j].order { assert front[i] == invoices[i] && front[j] == invoices[j]; }
      OneInvoiceWorth(front, c, id);
    }
  }

  /** The two places an order can be counted in are never both in use. */
  lemma CarriedIsOpenOrBilled(s: System, c: int, o: nat)
    requires Linked(s) && o < |s.trade.orders|
    ensures (if s.trade.orders[o].customer == c then Carried(s, o) else 0)
            == OpenTerm(s.trade.orders[o], o + 1, s.books.ledger, c) + SumOf(BilledFor(c, o + 1), s.books.invoices)
  {
    OneInvoiceWorth(s.books.invoices, c, o + 1);
    OneRowSettles(s, o);
    if InvoiceFor(s.books, o) >= 0 { InvoicedFor(s, o, InvoiceFor(s.books, o)); }
  }

  lemma {:induction false} CarriedSplits(s: System, c: int, n: nat)
    requires Linked(s) && n <= |s.trade.orders|
    ensures CarriedValue(s, c, n) == OpenOrderValue(s.trade.orders, s.books.ledger, c, n) + BilledValue(s.books.invoices, c, n)
  {
    if n != 0 {
      CarriedSplits(s, c, n - 1);
      CarriedIsOpenOrBilled(s, c, n - 1);
    }
  }

  /** Exposure in closed form: what the orders weigh, less notes and standing payments, with openings and write-offs. */
  ghost predicate ExposureIsCarried(s: System, c: int) {
    CreditExposure(s, c)
    == CarriedValue(s, c, |s.trade.orders|) - SumOf(L.NoteWorth(c), s.books.notes) - SumOf(L.PaymentWorth(c), s.books.payments)
       + SumOf(L.BareAmount(c), s.books.ledger)
  }

  lemma {:induction false} BooksBalance(actions: seq<Action>, c: int)
    requires AllSane(actions)
    ensures L.BalanceIsDocuments(Run(Nothing, actions).books, c)
  {
    if |actions| != 0 {
      var s, a := Run(Nothing, actions[..|actions| - 1]), actions[|actions| - 1];
      BooksBalance(actions[..|actions| - 1], c);
      match a
      case InTrade(_) =>
      case InBooks(posting) => L.NextBalances(s.books, posting, c);
      case InvoiceOrder(o, intraState, on, uuid) => if o < |s.trade.orders| { L.IssueBalances(s.books, SaleOf(s.trade, o), intraState, on, uuid, c); }
    }
  }

  /** Over every run a customer's exposure is what its orders weigh, each counted as `EachOrderCountsOnce` says, less what was credited and paid. */
  lemma EveryRunsExposure(actions: seq<Action>, c: int)
    requires AllSane(actions)
    ensures ExposureIsCarried(Run(Nothing, actions), c)
  {
    var s := Run(Nothing, actions);
    EveryRunIsLinked(actions);
    BooksBalance(actions, c);
    CarriedSplits(s, c, |s.trade.orders|);
    forall i | 0 <= i < |s.books.invoices| ensures 0 < s.books.invoices[i].order <= |s.trade.orders| {
      assert Bills(s.books.invoices[i], s.trade.orders);
    }
    BilledByOrder(s.books.invoices, c, |s.trade.orders|);
  }

  // ------------------------------------------------------------------ what was entered by hand

  function ForgivenIn(c: int): Action -> int { (a: Action) => if a.InBooks? then L.Forgiven(c)(a.posting) else 0 }

  function OpensIn(c: int): Action -> bool { (a: Action) => a.InBooks? && a.posting.Open? && L.Opens(c)(a.posting) }

  function OpenedIn(actions: seq<Action>, c: int): int {
    var k := IndexWhere(OpensIn(c), actions);
    if k >= 0 then actions[k].posting.amount else 0
  }

  lemma {:induction false} SystemIsEntered(actions: seq<Action>, c: int)
    requires AllSane(actions)
    ensures L.BareIsEntered(Run(Nothing, actions).books, OpenedIn(actions, c), SumOf(ForgivenIn(c), actions), IndexWhere(OpensIn(c), actions) >= 0, c)
  {
    if |actions| != 0 {
      var front, a := actions[..|actions| - 1], actions[|actions| - 1];
      var s := Run(Nothing, front);
      SystemIsEntered(front, c);
      match a
      case InTrade(_) =>
      case InvoiceOrder(o, intraState, on, uuid) =>
        if o < |s.trade.orders| { L.IssueIsNotBare(s.books, SaleOf(s.trade, o), intraState, on, uuid, c); }
      case InBooks(posting) =>
        L.NextIsEntered(s.books, posting, OpenedIn(front, c), SumOf(ForgivenIn(c), front), IndexWhere(OpensIn(c), front) >= 0, c);
    }
  }

  /** So over every run exposure is what the orders weigh and the first opening entered, less notes, standing payments and accepted write-offs. */
  lemma EveryRunsExposureAsEntered(actions: seq<Action>, c: int)
    requires AllSane(actions)
    ensures
      var s := Run(Nothing, actions);
      CreditExposure(s, c)
      == CarriedValue(s, c, |s.trade.orders|) - SumOf(L.NoteWorth(c), s.books.notes) - SumOf(L.PaymentWorth(c), s.books.payments)
         + OpenedIn(actions, c) - SumOf(ForgivenIn(c), actions)
  {
    EveryRunsExposure(actions, c);
    SystemIsEntered(actions, c);
  }

  // ------------------------------------------------------------------ cancelling

  /** Cancelling an invoice takes its whole total out of its customer's exposure, and nobody else's moves. */
  lemma CancellingDropsTheOrder(s: System, i: nat, reason: string, today: int, c: int)
    requires Linked(s) && i < |s.books.invoices|
    ensures
      var (invoice, s') := (s.books.invoices[i], Next(s, InBooks(L.Cancel(i, reason, today))));
      s' != s ==>
        && CreditExposure(s', c) - CreditExposure(s, c) == (if c == invoice.customer then -invoice.header.total else 0)
        && 0 < invoice.order <= |s.trade.orders|
        && Carried(s, invoice.order - 1) == invoice.header.total && Carried(s', invoice.order - 1) == 0
  {
    var s' := Next(s, InBooks(L.Cancel(i, reason, today)));
    if s' != s {
      var row := s'.books.ledger[|s.books.ledger|];
      SumOfSnoc(L.CustomerAmount(c), s.books.ledger, row);
      OpenValueAfterRow(s.trade.orders, s.books.ledger, row, c, |s.trade.orders|);
      CancellingEmptiesTheOrder(s, i, reason, today);
    }
  }

  lemma CancellingEmptiesTheOrder(s: System, i: nat, reason: string, today: int)
    requires Linked(s) && i < |s.books.invoices|
    requires Next(s, InBooks(L.Cancel(i, reason, today))) != s
    ensures
      var (invoice, s') := (s.books.invoices[i], Next(s, InBooks(L.Cancel(i, reason, today))));
      && 0 < invoice.order <= |s.trade.orders| && Carried(s, invoice.order - 1) == invoice.header.total && Carried(s', invoice.order - 1) == 0
  {
    var a := L.Cancel(i, reason, today);
    PostingsKeepLinks(s, a);
    CancelMarks(s.books, i, reason, today);
    CancelledWeighsNothing(s, Next(s, InBooks(a)), i);
  }

  lemma CancelMarks(b: Ledgers, i: nat, reason: string, today: int)
    requires i < |b.invoices| && L.Next(b, L.Cancel(i, reason, today)) != b
    ensures var b' := L.Next(b, L.Cancel(i, reason, today));
            && b.invoices[i].status == ISSUED && i < |b'.invoices| && b'.invoices[i].status == CANCELLED
            && b'.invoices[i].order == b.invoices[i].order
  {
  }

  lemma CancelledWeighsNothing(s: System, s': System, i: nat)
    requires Linked(s) && Linked(s') && s'.trade == s.trade && i < |s.books.invoices| && i < |s'.books.invoices|
    requires s.books.invoices[i].status == ISSUED && s'.books.invoices[i].status == CANCELLED && s'.books.invoices[i].order == s.books.invoices[i].order
    ensures var o := s.books.invoices[i].order - 1;
            0 <= o < |s.trade.orders| && Carried(s, o) == s.books.invoices[i].header.total && Carried(s', o) == 0
  {
    CarriedByInvoice(s, i);
    CarriedByInvoice(s', i);
  }

  /** An invoiced order weighs its invoice, or nothing. */
  lemma CarriedByInvoice(s: System, i: nat)
    requires Linked(s) && i < |s.books.invoices|
    ensures var invoice := s.books.invoices[i];
            && 0 < invoice.order <= |s.trade.orders|
            && Carried(s, invoice.order - 1) == if invoice.status == ISSUED then invoice.header.total else 0
  {
    InvoiceIsFound(s, i);
  }

  /** Looking an order's invoice up finds it. */
  lemma InvoiceIsFound(s: System, i: nat)
    requires Linked(s) && i < |s.books.invoices|
    ensures 0 < s.books.invoices[i].order <= |s.trade.orders| && InvoiceFor(s.books, s.books.invoices[i].order - 1) == i
  {
    assert Bills(s.books.invoices[i], s.trade.orders);
    assert InvoiceOf(s.books.invoices[i].order)(s.books.invoices[i]);
  }

  lemma StepGrows(s: System, a: Action)
    requires Linked(s) && Sane(a)
    ensures L.Grows(s.books, Next(s, a).books)
  {
    match a
    case InTrade(_) =>
    case InBooks(posting) => L.NextGrows(s.books, posting);
    case InvoiceOrder(o, intraState, on, uuid) =>
      if o < |s.trade.orders| {
        OrdersArePriced(s.trade, o);
        L.NextGrows(s.books, L.Issue(SaleOf(s.trade, o), intraState, on, uuid));
      }
  }

  lemma {:induction false} CancelledStays(s: System, i: nat, actions: seq<Action>)
    requires Linked(s) && AllSane(actions) && i < |s.books.invoices| && s.books.invoices[i].status == CANCELLED
    ensures var later := Run(s, actions);
            && Linked(later) && i < |later.books.invoices| && later.books.invoices[i].status == CANCELLED
            && later.books.invoices[i].order == s.books.invoices[i].order
  {
    if |actions| != 0 {
      var front := Run(s, actions[..|actions| - 1]);
      CancelledStays(s, i, actions[..|actions| - 1]);
      NextLinked(front, actions[|actions| - 1]);
      StepGrows(front, actions[|actions| - 1]);
      assert L.InvoiceStays(front.books.invoices[i], Next(front, actions[|actions| - 1]).books.invoices[i]);
    }
  }

  /**
   For good: whatever happens afterwards, an order whose invoice was cancelled is still live, its goods are
   still out, it weighs nothing, and no request to invoice it changes anything.
   */
  lemma CancelledIsNeverBilledAgain(s: System, i: nat, actions: seq<Action>)
    requires Linked(s) && AllSane(actions) && i < |s.books.invoices| && s.books.invoices[i].status == CANCELLED
    ensures Unbillable(Run(s, actions), s.books.invoices[i].order - 1)
  {
    CancelledStays(s, i, actions);
    CancelledIsUnbillable(Run(s, actions), i);
  }

  /** A live order with its goods out that weighs nothing, and that no request to invoice changes. */
  ghost predicate Unbillable(s: System, o: int) {
    && 0 <= o < |s.trade.orders| && T.Left(s.trade.orders[o].status) && LiveOrder(s.trade.orders[o].status)
    && Carried(s, o) == 0
    && forall intraState, on, uuid :: Next(s, InvoiceOrder(o, intraState, on, uuid)) == s
  }

  lemma CancelledIsUnbillable(s: System, i: nat)
    requires Linked(s) && i < |s.books.invoices| && s.books.invoices[i].status == CANCELLED
    ensures Unbillable(s, s.books.invoices[i].order - 1)
  {
    var o := s.books.invoices[i].order - 1;
    InvoiceIsFound(s, i);
    assert Bills(s.books.invoices[i], s.trade.orders);
    forall intraState, on, uuid ensures Next(s, InvoiceOrder(o, intraState, on, uuid)) == s { InvoicedOnce(s, o, intraState, on, uuid); }
  }

  lemma InvoicedOnce(s: System, o: nat, intraState: bool, on: Numbering.Day, uuid: Option<Uuid>)
    requires o < |s.trade.orders| && InvoiceFor(s.books, o) >= 0
    ensures Next(s, InvoiceOrder(o, intraState, on, uuid)) == s
  {
  }

  // ------------------------------------------------------------------ two runs

  /** One unit of an untaxed product at `price` paise, as entered and as it ends up on the order. */
  function Entered(price: int): RawLine { RawLine(Product(1, price, 0, 1, true), Some(1000), None, 0) }

  function Sold(price: int): T.Order {
    T.Order(1, T.DISPATCHED, [OrderLine(1, 1000, None, price, 0, price, 0, 0, price)], OrderTotals(price, 0, 0, price), None)
  }

  /** Placed, confirmed, assigned, dispatched. */
  function Selling(price: int): seq<Action> {
    [InTrade(T.PlaceOrder(1, true, [Entered(price)], 10000, None, false)), InTrade(T.ConfirmOrder(0)),
     InTrade(T.AssignDelivery(0, true, None)), InTrade(T.DispatchDelivery(0, false))]
  }

  lemma RunSnoc(s: System, actions: seq<Action>, a: Action)
    requires AllSane(actions) && Sane(a)
    ensures AllSane(actions + [a]) && Run(s, actions + [a]) == Next(Run(s, actions), a)
  {
    assert (actions + [a])[..|actions|] == actions;
  }

  lemma PricesAreExact(price: int)
    requires price >= 0
    ensures Gross(price, 1000) == price && MaxDiscount(price, 10000) == price && Money.HalfUp(price * 0, 10000) == 0
  {
    Money.HalfUpExact(price, 1000);
    Money.HalfUpExact(price, 10000);
    Money.HalfUpExact(0, 10000);
  }

  lemma EnteredIsPriced(price: int)
    requires price >= 0
    ensures PriceLine(Entered(price), 10000) == Done(Sold(price).lines[0]) && Priced(Sold(price).lines[0])
  {
    PricesAreExact(price);
  }

  lemma EnteredIsSold(price: int)
    requires price >= 0
    ensures PricedLines([Entered(price)], 10000) == Done(Sold(price).lines) && TotalsOf(Sold(price).lines) == Sold(price).totals
    ensures AllPriced(Sold(price).lines)
  {
    EnteredIsPriced(price);
    PricesAreExact(price);
    assert [Entered(price)][..0] == [] && PricedLines([], 10000) == Done([]);
    var line := Sold(price).lines[0];
    assert Sold(price).lines == [] + [line];
    SumOfSnoc(LineGross(), [], line);
    SumOfSnoc(LineDiscount(), [], line);
    SumOfSnoc(LineTax(), [], line);
    SumOfSnoc(LineTotal(), [], line);
  }

  lemma SellingDispatches(price: int)
    requires price >= 0
    ensures AllSane(Selling(price))
    ensures Run(Nothing, Selling(price)).trade.orders == [Sold(price)] && Run(Nothing, Selling(price)).books == EmptyBooks
  {
    var a := Selling(price);
    EnteredIsSold(price);
    RunSnoc(Nothing, [], a[0]);
    RunSnoc(Nothing, [a[0]], a[1]);
    RunSnoc(Nothing, [a[0], a[1]], a[2]);
    RunSnoc(Nothing, [a[0], a[1], a[2]], a[3]);
    assert [] + [a[0]] == [a[0]] && [a[0]] + [a[1]] == [a[0], a[1]] && [a[0], a[1]] + [a[2]] == [a[0], a[1], a[2]] && [a[0], a[1], a[2]] + [a[3]] == a;
    PlacingAndConfirming(price);
    HandingOver(Next(Next(Nothing, a[0]), a[1]), price);
  }

  lemma PlacingAndConfirming(price: int)
    requires price >= 0
    ensures var s := Next(Next(Nothing, Selling(price)[0]), Selling(price)[1]);
            s.trade.orders == [Sold(price).(status := T.CONFIRMED)] && s.trade.deliveries == [] && s.books == EmptyBooks
  {
    EnteredIsSold(price);
    assert Next(Nothing, Selling(price)[0]).trade.orders == [Sold(price).(status := T.PLACED)];
  }

  lemma HandingOver(s: System, price: int)
    requires s.trade.orders == [Sold(price).(status := T.CONFIRMED)] && s.trade.deliveries == [] && s.books == EmptyBooks
    ensures var s' := Next(Next(s, Selling(price)[2]), Selling(price)[3]); s'.trade.orders == [Sold(price)] && s'.books == EmptyBooks
  {
    assert Next(s, Selling(price)[2]).trade.deliveries == [T.Delivery(0, T.PENDING, false, None, None)];
  }

  /** An order for 40 paise goes out and can never be invoiced: its total rounds to nothing, and the ledger refuses that. */
  lemma AFortyPaiseOrderIsNeverInvoiced(intraState: bool, on: Numbering.Day)
    ensures AllSane(Selling(40))
    ensures var s := Run(Nothing, Selling(40));
            && |s.trade.orders| == 1 && s.trade.orders[0].status == T.DISPATCHED && s.trade.orders[0].totals.total == 40
            && IssueInvoice(s.books, SaleOf(s.trade, 0), intraState, on, None).Refused?
  {
    SellingDispatches(40);
    EnteredIsSold(40);
    var s := Run(Nothing, Selling(40));
    L.InvoiceableExactlyWhen(s.books, SaleOf(s.trade, 0), intraState, on, None);
  }

  lemma WholeRupeesRoundToThemselves(total: int, price: int, roundOff: int)
    requires total == price + roundOff && total % 100 == 0 && price % 100 == 0 && -50 < roundOff <= 50
    ensures roundOff == 0
  {
    assert roundOff == 100 * (total / 100 - price / 100);
  }

  /** A first invoice, for whole rupees: nothing to round off. */
  lemma FirstInvoice(b: Ledgers, sale: Sale, on: Numbering.Day, price: int)
    requires b.invoices == [] && b.notes == [] && Numbering.AllocateNumber(b.series, Numbering.INVOICE_SERIES, on).Done?
    requires AllPriced(sale.lines) && |sale.lines| > 0 && sale.goodsOut
    requires TotalsOf(sale.lines).total == price && price >= 100 && price % 100 == 0
    ensures
      var r := IssueInvoice(b, sale, true, on, None);
      && r.Done? && r.value != b && |r.value.invoices| == 1 && r.value.notes == []
      && r.value.invoices[0].customer == sale.customer && r.value.invoices[0].status == ISSUED && r.value.invoices[0].header.total == price
      && InvoiceHeader(sale.lines, true).roundOff == 0
  {
    L.InvoiceableExactlyWhen(b, sale, true, on, None);
    L.IssueAddsInvoice(b, sale, true, on, None);
    InvoiceReconciles(sale.lines, true);
    WholeRupeesRoundToThemselves(InvoiceHeader(sale.lines, true).total, price, InvoiceHeader(sale.lines, true).roundOff);
  }

  lemma SoldIsOpen(s: System, price: int)
    requires s.trade.orders == [Sold(price)] && s.books == EmptyBooks
    ensures CreditExposure(s, 1) == price
  {
    assert OpenOrderValue(s.trade.orders, s.books.ledger, 1, 1)
        == OpenOrderValue(s.trade.orders, s.books.ledger, 1, 0) + OpenTerm(s.trade.orders[0], 1, s.books.ledger, 1);
  }

  /** The one order, invoiced. */
  lemma SoldIsBilled(s: System, price: int, on: Numbering.Day)
    requires Linked(s) && s.trade.orders == [Sold(price)] && s.books == EmptyBooks && price >= 100 && price % 100 == 0
    ensures
      var billed := Next(s, InvoiceOrder(0, true, on, None));
      && Linked(billed) && CreditExposure(billed, 1) == price && billed.trade == s.trade
      && |billed.books.invoices| == 1 && billed.books.invoices[0].customer == 1
      && billed.books.invoices[0].status == ISSUED && billed.books.invoices[0].header.total == price && billed.books.notes == []
  {
    EnteredIsSold(price);
    FirstInvoice(s.books, SaleOf(s.trade, 0), on, price);
    SoldIsOpen(s, price);
    InvoicingMovesOnlyTheRoundOff(s, 0, true, on, None, 1);
    NextLinked(s, InvoiceOrder(0, true, on, None));
  }

  /** Its invoice, cancelled. */
  lemma BilledIsDropped(s: System, price: int, reason: string, today: int)
    requires Linked(s) && CreditExposure(s, 1) == price && |s.books.invoices| == 1 && s.books.notes == [] && reason != ""
    requires s.books.invoices[0].customer == 1 && s.books.invoices[0].status == ISSUED && s.books.invoices[0].header.total == price > 0
    ensures CreditExposure(Next(s, InBooks(L.Cancel(0, reason, today))), 1) == 0
    ensures Next(s, InBooks(L.Cancel(0, reason, today))).trade == s.trade
  {
    var s' := Next(s, InBooks(L.Cancel(0, reason, today)));
    assert |s'.books.ledger| == |s.books.ledger| + 1;
    CancellingDropsTheOrder(s, 0, reason, today, 1);
  }

  /** The order is invoiced, and the invoice cancelled. */
  function Unbilling(price: int, on: Numbering.Day, reason: string, today: int): seq<Action> {
    Selling(price) + [InvoiceOrder(0, true, on, None)] + [InBooks(L.Cancel(0, reason, today))]
  }

  /** Any whole-rupee order: its goods are out, and its customer is exposed for nothing. */
  lemma ACancelledOrderWeighsNothing(price: int, on: Numbering.Day, reason: string, today: int)
    requires price >= 100 && price % 100 == 0 && reason != ""
    ensures AllSane(Unbilling(price, on, reason, today))
    ensures var s := Run(Nothing, Unbilling(price, on, reason, today));
            && |s.trade.orders| == 1 && s.trade.orders[0].status == T.DISPATCHED && s.trade.orders[0].totals.total == price
            && CreditExposure(s, 1) == 0
  {
    var invoicing, cancelling := InvoiceOrder(0, true, on, None), InBooks(L.Cancel(0, reason, today));
    SellingDispatches(price);
    EveryRunIsLinked(Selling(price));
    SoldIsBilled(Run(Nothing, Selling(price)), price, on);
    RunSnoc(Nothing, Selling(price), invoicing);
    BilledIsDropped(Run(Nothing, Selling(price) + [invoicing]), price, reason, today);
    RunSnoc(Nothing, Selling(price) + [invoicing], cancelling);
  }
}
