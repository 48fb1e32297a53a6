/** What every purchasing service keeps, at a fixed tolerance, over whole runs. */
module PurchasingLaws {
  import opened Outcomes
  import opened Sums
  import opened Money
  import opened Vocabulary
  import opened LedgerWalk
  import opened Purchasing

  // ------------------------------------------------------------------ the pricing of one receipt

  /** An agreed line: something ordered, its figures rounded from its own terms. */
  predicate Agreed(l: PurchaseLine) {
    && l.ordered > 0 && l.unitCost >= 0 && 0 <= l.taxRate <= 10000
    && Nearest(l.unitCost * l.ordered, 1000, l.taxable) && Nearest(l.taxable * l.taxRate, 10000, l.tax) && l.total == l.taxable + l.tax
  }

  /** An order as its services leave it: lines agreed, header their sum, nothing expected before it was ordered. */
  predicate Costed(po: PurchaseOrder) {
    && |po.lines| > 0 && (forall l :: 0 <= l < |po.lines| ==> Agreed(po.lines[l])) && po.totals == OrderTotals(po.lines)
    && !BeforeOrder(po.expected, po.orderDate)
  }

  /** A received line: something arrived, priced from its order line, each figure rounded on its own. */
  predicate Booked(r: ReceiptLine, po: PurchaseOrder) {
    && r.line < |po.lines| && r.product == po.lines[r.line].product && r.quantity > 0
    && Nearest(po.lines[r.line].unitCost * r.quantity, 1000, r.taxable)
    && Nearest(r.taxable * po.lines[r.line].taxRate, 10000, r.tax)
    && 0 <= r.tax <= r.taxable && r.total == r.taxable + r.tax
  }

  lemma PriceLineBooks(po: PurchaseOrder, raw: RawLine)
    requires Costed(po) && raw.line < |po.lines| && raw.quantity > 0
    ensures Booked(PriceLine(po, raw), po)
  {
    var l := po.lines[raw.line];
    ProductIsNatural(l.unitCost, raw.quantity);
    HalfUpBounds(l.unitCost * raw.quantity, 1000);
    HalfUpMonotone(0, l.unitCost * raw.quantity, 1000);
    var taxable := TaxableCost(l.unitCost, raw.quantity);
    ProductIsNatural(taxable, l.taxRate);
    ProductIsNatural(taxable, 10000 - l.taxRate);
    assert taxable * l.taxRate + taxable * (10000 - l.taxRate) == taxable * 10000;
    HalfUpBounds(taxable * l.taxRate, 10000);
    HalfUpWithin(taxable * l.taxRate, taxable, 10000);
  }

  lemma ProductIsNatural(a: int, b: int)
    requires a >= 0 && b >= 0
    ensures a * b >= 0
  {
  }

  /** `x` is at most what was ordered plus the tolerance, in hundredths of a percent, to the nearest thousandth. */
  predicate UnderCeiling(ordered: int, tolerance: int, x: int) {
    var n := ordered * (10000 + tolerance);
    if n >= 0 then 20000 * x <= 2 * n + 10000 else 20000 * x < 2 * n + 10000
  }

  lemma LimitIsTheCeiling(ordered: int, tolerance: int, x: int)
    ensures x <= AcceptanceLimit(ordered, tolerance) <==> UnderCeiling(ordered, tolerance, x)
  {
    HalfUpBounds(ordered * (10000 + tolerance), 10000);
  }

  predicate AllBooked(lines: seq<ReceiptLine>, po: PurchaseOrder) { forall i :: 0 <= i < |lines| ==> Booked(lines[i], po) }

  lemma {:induction false} PricedAreBooked(t: Tables, o: nat, raw: seq<RawLine>, tolerance: int)
    requires o < |t.orders| && Costed(t.orders[o]) && PriceReceiptLines(t, o, raw, tolerance).Done?
    ensures var lines := PriceReceiptLines(t, o, raw, tolerance).value;
            |lines| == |raw| && AllBooked(lines, t.orders[o])
  {
    if |raw| != 0 {
      PricedAreBooked(t, o, raw[..|raw| - 1], tolerance);
      PriceLineBooks(t.orders[o], raw[|raw| - 1]);
    }
  }

  /** What a priced receipt adds to each line stays under that line's ceiling; a line it does not name gets nothing. */
  lemma PricedWithinLimit(t: Tables, o: nat, raw: seq<RawLine>, tolerance: int, l: nat)
    requires o < |t.orders| && Costed(t.orders[o]) && PriceReceiptLines(t, o, raw, tolerance).Done?
    ensures
      var lines := PriceReceiptLines(t, o, raw, tolerance).value;
      && |lines| == |raw| && AllBooked(lines, t.orders[o])
      && (if l in Seen(raw)
          then l < |t.orders[o].lines|
               && UnderCeiling(t.orders[o].lines[l].ordered, tolerance, ReceivedQuantity(t.receipts, o, l) + SumOf(OnLine(l), lines))
          else SumOf(OnLine(l), lines) == 0)
  {
    PricedAreBooked(t, o, raw, tolerance);
    PricedUnderLimit(t, o, raw, tolerance, l);
    if l in Seen(raw) {
      LimitIsTheCeiling(t.orders[o].lines[l].ordered, tolerance,
                        ReceivedQuantity(t.receipts, o, l) + SumOf(OnLine(l), PriceReceiptLines(t, o, raw, tolerance).value));
    }
  }

  lemma {:induction false} PricedUnderLimit(t: Tables, o: nat, raw: seq<RawLine>, tolerance: int, l: nat)
    requires o < |t.orders| && PriceReceiptLines(t, o, raw, tolerance).Done?
    ensures
      var brought := SumOf(OnLine(l), PriceReceiptLines(t, o, raw, tolerance).value);
      if l in Seen(raw)
      then l < |t.orders[o].lines| && ReceivedQuantity(t.receipts, o, l) + brought <= AcceptanceLimit(t.orders[o].lines[l].ordered, tolerance)
      else brought == 0
  {
    if |raw| != 0 {
      var front, last := raw[..|raw| - 1], raw[|raw| - 1];
      PricedUnderLimit(t, o, front, tolerance, l);
      SeenSnoc(raw);
      SumOfSnoc(OnLine(l), PriceReceiptLines(t, o, front, tolerance).value, PriceLine(t.orders[o], last));
    }
  }

  /** Submitted line `i` is this order's, not named before, positive, and with all that came before it under its ceiling. */
  predicate LineFits(t: Tables, o: nat, raw: seq<RawLine>, i: nat, tolerance: int)
    requires o < |t.orders| && i < |raw|
  {
    && raw[i].order == o && raw[i].line < |t.orders[o].lines| && raw[i].quantity > 0
    && (forall j :: 0 <= j < i ==> raw[j].line != raw[i].line)
    && UnderCeiling(t.orders[o].lines[raw[i].line].ordered, tolerance, ReceivedQuantity(t.receipts, o, raw[i].line) + raw[i].quantity)
  }

  /** A receipt's lines are accepted exactly when every one fits, and are booked line for line as submitted. */
  lemma {:induction false} PricedExactlyWhen(t: Tables, o: nat, raw: seq<RawLine>, tolerance: int)
    requires o < |t.orders|
    ensures
      var r := PriceReceiptLines(t, o, raw, tolerance);
      && (r.Done? <==> forall i :: 0 <= i < |raw| ==> LineFits(t, o, raw, i, tolerance))
      && (r.Done? ==>
            && |r.value| == |raw|
            && forall i :: 0 <= i < |raw| ==> r.value[i].line == raw[i].line && r.value[i].quantity == raw[i].quantity)
  {
    if |raw| != 0 {
      var n := |raw| - 1;
      var front := raw[..n];
      PricedExactlyWhen(t, o, front, tolerance);
      forall i | 0 <= i < n ensures LineFits(t, o, front, i, tolerance) == LineFits(t, o, raw, i, tolerance) {
        assert forall j :: 0 <= j <= i ==> front[j] == raw[j];
      }
      LastLineFits(t, o, raw, tolerance);
    }
  }

  lemma LastLineFits(t: Tables, o: nat, raw: seq<RawLine>, tolerance: int)
    requires o < |t.orders| && |raw| > 0
    ensures LineFits(t, o, raw, |raw| - 1, tolerance) <==> LineAccepted(t, o, raw[|raw| - 1], Seen(raw[..|raw| - 1]), tolerance)
  {
    var n, last := |raw| - 1, raw[|raw| - 1];
    assert last.line in Seen(raw[..n]) <==> exists j :: 0 <= j < n && raw[..n][j].line == last.line;
    assert forall j :: 0 <= j < n ==> raw[..n][j] == raw[j];
    if last.line < |t.orders[o].lines| {
      LimitIsTheCeiling(t.orders[o].lines[last.line].ordered, tolerance, ReceivedQuantity(t.receipts, o, last.line) + last.quantity);
    }
  }

  lemma SeenSnoc(raw: seq<RawLine>)
    requires |raw| > 0
    ensures Seen(raw) == Seen(raw[..|raw| - 1]) + {raw[|raw| - 1].line}
  {
    forall l ensures l in Seen(raw) <==> l in Seen(raw[..|raw| - 1]) + {raw[|raw| - 1].line} {
      if l in Seen(raw) {
        var i :| 0 <= i < |raw| && raw[i].line == l;
        assert i < |raw| - 1 ==> raw[..|raw| - 1][i].line == l;
      }
      if l in Seen(raw[..|raw| - 1]) {
        var i :| 0 <= i < |raw| - 1 && raw[..|raw| - 1][i].line == l;
        assert raw[i].line == l;
      }
      assert raw[|raw| - 1].line in Seen(raw);
    }
  }

  // ------------------------------------------------------------------ what has arrived

  lemma {:induction false} NothingOnLine(lines: seq<ReceiptLine>, l: nat)
    requires forall i :: 0 <= i < |lines| ==> lines[i].quantity > 0
    ensures SumOf(OnLine(l), lines) >= 0
  {
    if |lines| != 0 { NothingOnLine(lines[..|lines| - 1], l); }
  }

  lemma {:induction false} NothingReceivedYet(receipts: seq<Receipt>, o: nat, l: nat)
    requires forall r :: 0 <= r < |receipts| ==> receipts[r].order != o
    ensures ReceivedQuantity(receipts, o, l) == 0
  {
    if |receipts| != 0 { NothingReceivedYet(receipts[..|receipts| - 1], o, l); }
  }

  predicate ReceiptFits(t: Tables, r: nat)
    requires r < |t.receipts|
  {
    var receipt := t.receipts[r];
    && receipt.order < |t.orders| && |receipt.lines| > 0 && AllBooked(receipt.lines, t.orders[receipt.order])
    && receipt.supplier == t.orders[receipt.order].supplier && receipt.totals == ReceiptTotals(receipt.lines)
  }

  predicate NothingArrived(t: Tables, o: nat) { forall r :: 0 <= r < |t.receipts| ==> t.receipts[r].order != o }

  /** Never above the ceiling; and the status says whether everything ordered has come, until the order is closed. */
  predicate OrderArrives(t: Tables, o: nat, tolerance: int)
    requires o < |t.orders|
  {
    var po := t.orders[o];
    && Costed(po)
    && (forall l :: 0 <= l < |po.lines| ==> UnderCeiling(po.lines[l].ordered, tolerance, ReceivedQuantity(t.receipts, o, l)))
    && (po.status == DRAFT || po.status == ISSUED || po.status == CANCELLED ==> NothingArrived(t, o))
    && (po.status == RECEIVED ==> AllMet(po, t.receipts, o))
    && (po.status == PARTIALLY_RECEIVED ==> !AllMet(po, t.receipts, o))
  }

  ghost predicate Arrives(t: Tables, tolerance: int) {
    && (forall r :: 0 <= r < |t.receipts| ==> ReceiptFits(t, r))
    && (forall o :: 0 <= o < |t.orders| ==> OrderArrives(t, o, tolerance))
  }

  /** What was received on a line grows by what each receipt of its order brings for it. */
  lemma ReceivedIsTheSum(receipts: seq<Receipt>, receipt: Receipt, o: nat, l: nat)
    ensures ReceivedQuantity([], o, l) == 0
    ensures ReceivedQuantity(receipts + [receipt], o, l) - ReceivedQuantity(receipts, o, l)
            == if receipt.order == o then SumOf((r: ReceiptLine) => if r.line == l then r.quantity else 0, receipt.lines) else 0
  {
    SumOfSnoc(AgainstLine(o, l), receipts, receipt);
    SumOfAgree(OnLine(l), (r: ReceiptLine) => if r.line == l then r.quantity else 0, receipt.lines);
  }

  /** Between issue and closing, RECEIVED is exactly "every line has reached its ordered quantity". */
  lemma ReceivedMeansEverythingCame(t: Tables, o: nat, tolerance: int)
    requires Arrives(t, tolerance) && o < |t.orders| && t.orders[o].status != CLOSED
    ensures t.orders[o].status == RECEIVED
            <==> forall l :: 0 <= l < |t.orders[o].lines| ==> ReceivedQuantity(t.receipts, o, l) >= t.orders[o].lines[l].ordered
  {
    assert OrderArrives(t, o, tolerance);
    if NothingArrived(t, o) {
      NothingReceivedYet(t.receipts, o, 0);
      assert !LineMet(t.orders[o], t.receipts, o, 0);
    }
    assert forall l :: 0 <= l < |t.orders[o].lines| ==>
      (LineMet(t.orders[o], t.receipts, o, l) <==> ReceivedQuantity(t.receipts, o, l) >= t.orders[o].lines[l].ordered);
  }

  lemma LimitCoversOrdered(ordered: int, tolerance: int)
    requires ordered > 0 && 0 <= tolerance
    ensures AcceptanceLimit(ordered, tolerance) >= ordered
  {
    HalfUpExact(ordered, 10000);
    ProductIsNatural(ordered, tolerance);
    assert ordered * (10000 + tolerance) == ordered * 10000 + ordered * tolerance;
    HalfUpMonotone(ordered * 10000, ordered * (10000 + tolerance), 10000);
  }

  // ------------------------------------------------------------------ steps that receive nothing

  /** Receipts, and the orders they are against, stay as they are. */
  ghost predicate KeepsReceipts(t: Tables, t': Tables) {
    && t'.receipts == t.receipts && |t.orders| <= |t'.orders|
    && forall o :: 0 <= o < |t.orders| ==>
         && t'.orders[o].supplier == t.orders[o].supplier
         && (t'.orders[o].lines == t.orders[o].lines || t.orders[o].status == DRAFT)
  }

  lemma ReceiptsStillFit(t: Tables, t': Tables, tolerance: int)
    requires Arrives(t, tolerance) && KeepsReceipts(t, t')
    ensures forall r :: 0 <= r < |t'.receipts| ==> ReceiptFits(t', r)
  {
    forall r | 0 <= r < |t'.receipts| ensures ReceiptFits(t', r) {
      assert ReceiptFits(t, r);
      assert OrderArrives(t, t.receipts[r].order, tolerance);
    }
  }

  lemma NewLineIsAgreed(l: DraftLine)
    requires Acceptable(l) && 0 <= l.taxRate <= 10000
    ensures Agreed(NewLine(l))
  {
    HalfUpBounds(l.unitCost * l.ordered, 1000);
    HalfUpBounds(TaxableCost(l.unitCost, l.ordered) * l.taxRate, 10000);
  }

  lemma {:induction false} NewLinesAreAgreed(raw: seq<DraftLine>)
    requires forall i :: 0 <= i < |raw| ==> Acceptable(raw[i]) && 0 <= raw[i].taxRate <= 10000
    ensures |NewLines(raw)| == |raw| && forall l :: 0 <= l < |raw| ==> Agreed(NewLines(raw)[l])
  {
    if |raw| != 0 {
      NewLinesAreAgreed(raw[..|raw| - 1]);
      NewLineIsAgreed(raw[|raw| - 1]);
    }
  }

  /** An order nothing has arrived against is within every limit, whatever its lines. */
  lemma EmptyOrderArrives(t: Tables, o: nat, tolerance: int)
    requires o < |t.orders| && Costed(t.orders[o]) && NothingArrived(t, o) && tolerance >= 0
    requires t.orders[o].status == DRAFT || t.orders[o].status == ISSUED || t.orders[o].status == CANCELLED
    ensures OrderArrives(t, o, tolerance)
  {
    forall l | 0 <= l < |t.orders[o].lines| ensures UnderCeiling(t.orders[o].lines[l].ordered, tolerance, ReceivedQuantity(t.receipts, o, l)) {
      NothingReceivedYet(t.receipts, o, l);
      LimitCoversOrdered(t.orders[o].lines[l].ordered, tolerance);
      LimitIsTheCeiling(t.orders[o].lines[l].ordered, tolerance, 0);
    }
  }

  lemma CreateArrives(t: Tables, supplier: int, active: bool, orderDate: Option<int>, expected: Option<int>, raw: seq<DraftLine>, tolerance: int)
    requires Arrives(t, tolerance) && tolerance >= 0 && forall i :: 0 <= i < |raw| ==> 0 <= raw[i].taxRate <= 10000
    ensures var r := CreateOrder(t, supplier, active, orderDate, expected, raw); r.Done? ==> Arrives(r.value, tolerance)
  {
    var r := CreateOrder(t, supplier, active, orderDate, expected, raw);
    if r.Done? {
      var t', n := r.value, |t.orders|;
      NewLinesAreAgreed(raw);
      ReceiptsStillFit(t, t', tolerance);
      forall k | 0 <= k < |t'.receipts| ensures t'.receipts[k].order != n { assert ReceiptFits(t, k); }
      forall o | 0 <= o < |t'.orders| ensures OrderArrives(t', o, tolerance) {
        if o < n { assert OrderArrives(t, o, tolerance); } else { EmptyOrderArrives(t', o, tolerance); }
      }
    }
  }

  lemma AmendArrives(t: Tables, o: nat, rescheduled: Option<Option<int>>, raw: seq<DraftLine>, tolerance: int)
    requires Arrives(t, tolerance) && tolerance >= 0 && o < |t.orders| && forall i :: 0 <= i < |raw| ==> 0 <= raw[i].taxRate <= 10000
    ensures var r := AmendOrder(t, o, rescheduled, raw); r.Done? ==> Arrives(r.value, tolerance)
  {
    var r := AmendOrder(t, o, rescheduled, raw);
    if r.Done? {
      var t' := r.value;
      NewLinesAreAgreed(raw);
      ReceiptsStillFit(t, t', tolerance);
      assert OrderArrives(t, o, tolerance);
      forall p | 0 <= p < |t'.orders| ensures OrderArrives(t', p, tolerance) {
        if p == o { EmptyOrderArrives(t', o, tolerance); } else { assert OrderArrives(t, p, tolerance); }
      }
    }
  }

  /** Issuing, cancelling and closing change a status and nothing else. */
  lemma StatusArrives(t: Tables, o: nat, to: Status, tolerance: int)
    requires Arrives(t, tolerance) && o < |t.orders| && (to == ISSUED || to == CANCELLED || to == CLOSED)
    ensures Transition(t, o, to).Done? ==> Arrives(Transition(t, o, to).value, tolerance)
  {
    if Transition(t, o, to).Done? {
      var t' := Transition(t, o, to).value;
      ReceiptsStillFit(t, t', tolerance);
      assert OrderArrives(t, o, tolerance);
      forall p | 0 <= p < |t'.orders| ensures OrderArrives(t', p, tolerance) { assert OrderArrives(t, p, tolerance); }
    }
  }

  lemma MoneyStepArrives(t: Tables, a: Action, tolerance: int)
    requires Arrives(t, tolerance) && (a.Pay? || a.Reverse? || a.Open?)
    ensures Arrives(Next(t, a, tolerance), tolerance)
  {
    var t' := Next(t, a, tolerance);
    assert t'.orders == t.orders && t'.receipts == t.receipts;
    forall o | 0 <= o < |t'.orders| ensures OrderArrives(t', o, tolerance) { assert OrderArrives(t, o, tolerance); }
    forall r | 0 <= r < |t'.receipts| ensures ReceiptFits(t', r) { assert ReceiptFits(t, r); }
  }

  // ------------------------------------------------------------------ drafting, and the life of an order

  /** A header is the sum of its lines, figure by figure. */
  lemma HeadersAddUp(lines: seq<PurchaseLine>, received: seq<ReceiptLine>)
    ensures
      var (h, r) := (OrderTotals(lines), ReceiptTotals(received));
      && h.subtotal == SumOf((l: PurchaseLine) => l.taxable, lines) && h.tax == SumOf((l: PurchaseLine) => l.tax, lines)
      && h.total == SumOf((l: PurchaseLine) => l.total, lines)
      && r.subtotal == SumOf((l: ReceiptLine) => l.taxable, received) && r.tax == SumOf((l: ReceiptLine) => l.tax, received)
      && r.total == SumOf((l: ReceiptLine) => l.total, received)
  {
    SumOfAgree(AgreedTaxable(), (l: PurchaseLine) => l.taxable, lines);
    SumOfAgree(AgreedTax(), (l: PurchaseLine) => l.tax, lines);
    SumOfAgree(AgreedTotal(), (l: PurchaseLine) => l.total, lines);
    SumOfAgree(LineTaxable(), (l: ReceiptLine) => l.taxable, received);
    SumOfAgree(LineTax(), (l: ReceiptLine) => l.tax, received);
    SumOfAgree(LineTotal(), (l: ReceiptLine) => l.total, received);
  }

  /** What a draft must state: an order day, an active supplier, no delivery expected before it, and lines of active products at a positive quantity and no negative cost. */
  predicate Drafts(active: bool, orderDate: Option<int>, expected: Option<int>, raw: seq<DraftLine>) {
    && orderDate.Some? && active && (expected.Some? ==> orderDate.value <= expected.value)
    && |raw| > 0 && forall l :: 0 <= l < |raw| ==> raw[l].active && raw[l].ordered > 0 && raw[l].unitCost >= 0
  }

  /** A line holds what was drafted, priced from its own terms. */
  predicate LineDrafted(l: PurchaseLine, raw: DraftLine) {
    l.product == raw.product && l.ordered == raw.ordered && l.unitCost == raw.unitCost && l.taxRate == raw.taxRate && Agreed(l)
  }

  predicate LinesDrafted(po: PurchaseOrder, raw: seq<DraftLine>) {
    |po.lines| == |raw| && (forall l :: 0 <= l < |raw| ==> LineDrafted(po.lines[l], raw[l])) && po.totals == OrderTotals(po.lines)
  }

  lemma {:induction false} NewLinesAreDrafted(raw: seq<DraftLine>)
    requires forall l :: 0 <= l < |raw| ==> Acceptable(raw[l]) && 0 <= raw[l].taxRate <= 10000
    ensures |NewLines(raw)| == |raw| && forall l :: 0 <= l < |raw| ==> LineDrafted(NewLines(raw)[l], raw[l])
  {
    if |raw| != 0 {
      NewLinesAreDrafted(raw[..|raw| - 1]);
      NewLineIsAgreed(raw[|raw| - 1]);
    }
  }

  /** An order is drafted exactly when what it states is in order; it is then the last row, a DRAFT, and holds what was stated. */
  lemma DraftedExactlyWhen(t: Tables, supplier: int, active: bool, orderDate: Option<int>, expected: Option<int>, raw: seq<DraftLine>)
    requires forall l :: 0 <= l < |raw| ==> 0 <= raw[l].taxRate <= 10000
    ensures
      var r := CreateOrder(t, supplier, active, orderDate, expected, raw);
      && (r.Done? <==> Drafts(active, orderDate, expected, raw))
      && (r.Done? ==>
            && r.value == t.(orders := r.value.orders) && |r.value.orders| == |t.orders| + 1 && r.value.orders[..|t.orders|] == t.orders
            && var po := r.value.orders[|t.orders|];
               po.supplier == supplier && po.status == DRAFT && Some(po.orderDate) == orderDate && po.expected == expected && LinesDrafted(po, raw))
  {
    if LinesAcceptable(raw) { NewLinesAreDrafted(raw); }
  }

  /** A draft is rewritten exactly while it is one and what it would then state is in order; its expected day changes only if asked. */
  lemma AmendedExactlyWhen(t: Tables, o: nat, rescheduled: Option<Option<int>>, raw: seq<DraftLine>)
    requires o < |t.orders| && !BeforeOrder(t.orders[o].expected, t.orders[o].orderDate)
    requires forall l :: 0 <= l < |raw| ==> 0 <= raw[l].taxRate <= 10000
    ensures
      var (po, r) := (t.orders[o], AmendOrder(t, o, rescheduled, raw));
      var expected := if rescheduled.Some? then rescheduled.value else po.expected;
      && (r.Done? <==> po.status == DRAFT && Drafts(true, Some(po.orderDate), expected, raw))
      && (r.Done? ==>
            && r.value == t.(orders := t.orders[o := r.value.orders[o]]) && LinesDrafted(r.value.orders[o], raw)
            && r.value.orders[o] == po.(expected := expected, lines := r.value.orders[o].lines, totals := r.value.orders[o].totals))
  {
    if LinesAcceptable(raw) { NewLinesAreDrafted(raw); }
  }

  /**
   An order is issued exactly from DRAFT, cancelled exactly before anything came, and closed exactly after something
   did, the last two with a reason. Receiving, closing and cancelling never lead back, and CLOSED and CANCELLED lead nowhere.
   */
  lemma OrdersEndExactlyWhen(t: Tables, o: nat, reason: string, tolerance: int)
    requires Arrives(t, tolerance) && o < |t.orders|
    ensures
      var status := t.orders[o].status;
      && (IssueOrder(t, o).Done? <==> status == DRAFT)
      && (EndOrder(t, o, CANCELLED, reason).Done? <==> reason != "" && (status == DRAFT || status == ISSUED))
      && (EndOrder(t, o, CLOSED, reason).Done? <==> reason != "" && (status == PARTIALLY_RECEIVED || status == RECEIVED))
      && (EndOrder(t, o, CANCELLED, reason).Done? ==> NothingArrived(t, o))
      && (status == RECEIVED || status == CLOSED || status == CANCELLED ==>
            forall date, raw :: CreateGoodsReceipt(t, o, date, raw, tolerance).Refused?)
  {
    assert OrderArrives(t, o, tolerance);
  }

  // ------------------------------------------------------------------ receiving

  /** `t'` has one more receipt, of `lines` against order `o`, and the movements and status that go with it. */
  ghost predicate Receives(t: Tables, t': Tables, o: nat, lines: seq<ReceiptLine>) {
    && o < |t.orders| && Receivable(t.orders[o].status)
    && |t'.receipts| == |t.receipts| + 1 && t'.receipts == t.receipts + [t'.receipts[|t.receipts|]]
    && t'.receipts[|t.receipts|].order == o && t'.receipts[|t.receipts|].lines == lines
    && t'.receipts[|t.receipts|].supplier == t.orders[o].supplier && t'.receipts[|t.receipts|].totals == ReceiptTotals(lines)
    && t'.stock == t.stock + MovementsOf(lines, |t.receipts|) && t'.payments == t.payments
    && t'.orders == t.orders[o := t.orders[o].(status := if AllMet(t.orders[o], t'.receipts, o) then RECEIVED else PARTIALLY_RECEIVED)]
  }

  lemma ReceiptShape(t: Tables, o: nat, date: Option<int>, raw: seq<RawLine>, tolerance: int)
    requires o < |t.orders|
    ensures var r := CreateGoodsReceipt(t, o, date, raw, tolerance);
            r.Done? ==>
              && |raw| > 0 && PriceReceiptLines(t, o, raw, tolerance).Done?
              && Receives(t, r.value, o, PriceReceiptLines(t, o, raw, tolerance).value)
              && PostReceipt(t, o, date.value, PriceReceiptLines(t, o, raw, tolerance).value).Done?
              && r.value.ledger == PostReceipt(t, o, date.value, PriceReceiptLines(t, o, raw, tolerance).value).value.ledger
              && Some(r.value.receipts[|t.receipts|].date) == date
  {
  }

  lemma ReceiveArrives(t: Tables, o: nat, date: Option<int>, raw: seq<RawLine>, tolerance: int)
    requires Arrives(t, tolerance) && o < |t.orders|
    ensures var r := CreateGoodsReceipt(t, o, date, raw, tolerance); r.Done? ==> Arrives(r.value, tolerance)
  {
    var r := CreateGoodsReceipt(t, o, date, raw, tolerance);
    if r.Done? {
      ReceiptShape(t, o, date, raw, tolerance);
      var t', lines := r.value, PriceReceiptLines(t, o, raw, tolerance).value;
      assert OrderArrives(t, o, tolerance);
      PricedWithinLimit(t, o, raw, tolerance, 0);
      forall p | 0 <= p < |t'.orders| ensures OrderArrives(t', p, tolerance) {
        assert OrderArrives(t, p, tolerance);
        if p == o { ReceivedOrderArrives(t, t', o, raw, tolerance); } else { OtherOrderArrives(t, t', o, lines, p, tolerance); }
      }
      forall k | 0 <= k < |t'.receipts| ensures ReceiptFits(t', k) {
        if k < |t.receipts| { assert ReceiptFits(t, k) && t'.receipts[k] == t.receipts[k]; }
      }
    }
  }

  lemma ReceivedOrderArrives(t: Tables, t': Tables, o: nat, raw: seq<RawLine>, tolerance: int)
    requires o < |t.orders| && OrderArrives(t, o, tolerance) && PriceReceiptLines(t, o, raw, tolerance).Done?
    requires Receives(t, t', o, PriceReceiptLines(t, o, raw, tolerance).value)
    ensures OrderArrives(t', o, tolerance)
  {
    var lines := PriceReceiptLines(t, o, raw, tolerance).value;
    forall l | 0 <= l < |t'.orders[o].lines|
      ensures UnderCeiling(t'.orders[o].lines[l].ordered, tolerance, ReceivedQuantity(t'.receipts, o, l))
    {
      PricedWithinLimit(t, o, raw, tolerance, l);
      SumOfSnoc(AgainstLine(o, l), t.receipts, t'.receipts[|t.receipts|]);
    }
    SameAllMet(t.orders[o], t'.orders[o], t'.receipts, o);
  }

  lemma SameAllMet(po: PurchaseOrder, po': PurchaseOrder, receipts: seq<Receipt>, o: nat)
    requires po'.lines == po.lines
    ensures AllMet(po', receipts, o) == AllMet(po, receipts, o)
  {
    assert forall l :: 0 <= l < |po.lines| ==> LineMet(po', receipts, o, l) == LineMet(po, receipts, o, l);
  }

  lemma OtherOrderArrives(t: Tables, t': Tables, o: nat, lines: seq<ReceiptLine>, p: nat, tolerance: int)
    requires p < |t.orders| && p != o && OrderArrives(t, p, tolerance) && Receives(t, t', o, lines)
    ensures OrderArrives(t', p, tolerance)
  {
    var receipt := t'.receipts[|t.receipts|];
    forall l ensures ReceivedQuantity(t'.receipts, p, l) == ReceivedQuantity(t.receipts, p, l) {
      SumOfSnoc(AgainstLine(p, l), t.receipts, receipt);
    }
    assert forall l :: 0 <= l < |t.orders[p].lines| ==> LineMet(t.orders[p], t'.receipts, p, l) == LineMet(t.orders[p], t.receipts, p, l);
  }

  /**
   A receipt commits exactly when the order is open for receiving, it is dated and not before the order, it has
   lines, and every one of them fits. Otherwise it is refused.
   */
  lemma ReceivedExactlyWhen(t: Tables, o: nat, date: Option<int>, raw: seq<RawLine>, tolerance: int)
    requires o < |t.orders| && Costed(t.orders[o])
    ensures CreateGoodsReceipt(t, o, date, raw, tolerance).Done?
            <==> && (t.orders[o].status == ISSUED || t.orders[o].status == PARTIALLY_RECEIVED)
                 && date.Some? && date.value >= t.orders[o].orderDate && |raw| > 0
                 && forall i :: 0 <= i < |raw| ==> LineFits(t, o, raw, i, tolerance)
  {
    PricedExactlyWhen(t, o, raw, tolerance);
    if PriceReceiptLines(t, o, raw, tolerance).Done? {
      PricedWithinLimit(t, o, raw, tolerance, 0);
      NothingIsOwedBack(PriceReceiptLines(t, o, raw, tolerance).value, t.orders[o]);
    }
  }

  // ------------------------------------------------------------------ only so many receipts

  /** Everything received on the first `n` lines of an order. */
  function ReceivedTotal(receipts: seq<Receipt>, o: nat, n: nat): int {
    if n == 0 then 0 else ReceivedTotal(receipts, o, n - 1) + ReceivedQuantity(receipts, o, n - 1)
  }

  function LimitTotal(lines: seq<PurchaseLine>, tolerance: int, n: nat): int
    requires n <= |lines|
  {
    if n == 0 then 0 else LimitTotal(lines, tolerance, n - 1) + AcceptanceLimit(lines[n - 1].ordered, tolerance)
  }

  /** What an order may still take, over all its lines. */
  function Room(t: Tables, o: nat, tolerance: int): int
    requires o < |t.orders|
  {
    LimitTotal(t.orders[o].lines, tolerance, |t.orders[o].lines|) - ReceivedTotal(t.receipts, o, |t.orders[o].lines|)
  }

  function CountsFor(o: nat): Receipt -> int { (r: Receipt) => if r.order == o then 1 else 0 }

  function Quantity(): ReceiptLine -> int { (r: ReceiptLine) => r.quantity }

  function LinesUpTo(lines: seq<ReceiptLine>, n: nat): int {
    if n == 0 then 0 else LinesUpTo(lines, n - 1) + SumOf(OnLine(n - 1), lines)
  }

  /** Summed line by line or row by row, a receipt brings the same quantity. */
  lemma {:induction false} LinesUpToSnoc(lines: seq<ReceiptLine>, x: ReceiptLine, n: nat)
    ensures LinesUpTo(lines + [x], n) == LinesUpTo(lines, n) + if x.line < n then x.quantity else 0
  {
    if n != 0 {
      LinesUpToSnoc(lines, x, n - 1);
      SumOfSnoc(OnLine(n - 1), lines, x);
    }
  }

  lemma {:induction false} NoLines(n: nat)
    ensures LinesUpTo([], n) == 0
  {
    if n != 0 { NoLines(n - 1); }
  }

  lemma {:induction false} LinesAddUp(lines: seq<ReceiptLine>, n: nat)
    requires forall i :: 0 <= i < |lines| ==> lines[i].line < n
    ensures LinesUpTo(lines, n) == SumOf(Quantity(), lines)
  {
    if |lines| != 0 {
      LinesAddUp(lines[..|lines| - 1], n);
      assert lines == lines[..|lines| - 1] + [lines[|lines| - 1]];
      LinesUpToSnoc(lines[..|lines| - 1], lines[|lines| - 1], n);
    } else {
      NoLines(n);
    }
  }

  lemma {:induction false} SomethingArrives(lines: seq<ReceiptLine>)
    requires forall i :: 0 <= i < |lines| ==> lines[i].quantity > 0
    ensures SumOf(Quantity(), lines) >= |lines|
  {
    if |lines| != 0 { SomethingArrives(lines[..|lines| - 1]); }
  }

  lemma {:induction false} ReceivedTotalSnoc(receipts: seq<Receipt>, r: Receipt, o: nat, n: nat)
    ensures ReceivedTotal(receipts + [r], o, n) == ReceivedTotal(receipts, o, n) + if r.order == o then LinesUpTo(r.lines, n) else 0
  {
    if n != 0 {
      ReceivedTotalSnoc(receipts, r, o, n - 1);
      SumOfSnoc(AgainstLine(o, n - 1), receipts, r);
    }
  }

  /** Each receipt takes at least one thousandth of a unit, so the receipts of an order are no more than what it received. */
  lemma {:induction false} ReceiptsAreNoMoreThanReceived(t: Tables, receipts: seq<Receipt>, o: nat)
    requires o < |t.orders| && receipts <= t.receipts && forall r :: 0 <= r < |t.receipts| ==> ReceiptFits(t, r)
    ensures SumOf(CountsFor(o), receipts) <= ReceivedTotal(receipts, o, |t.orders[o].lines|)
  {
    var n := |t.orders[o].lines|;
    if |receipts| == 0 {
      NothingInTotal(o, n);
    } else {
      var front, last := receipts[..|receipts| - 1], receipts[|receipts| - 1];
      ReceiptsAreNoMoreThanReceived(t, front, o);
      assert receipts == front + [last] && last == t.receipts[|receipts| - 1];
      assert ReceiptFits(t, |receipts| - 1);
      ReceivedTotalSnoc(front, last, o, n);
      if last.order == o {
        LinesAddUp(last.lines, n);
        SomethingArrives(last.lines);
      }
    }
  }

  lemma {:induction false} NothingInTotal(o: nat, n: nat)
    ensures ReceivedTotal([], o, n) == 0
  {
    if n != 0 { NothingInTotal(o, n - 1); }
  }

  lemma {:induction false} ReceivedUnderLimits(t: Tables, o: nat, tolerance: int, n: nat)
    requires o < |t.orders| && OrderArrives(t, o, tolerance) && n <= |t.orders[o].lines|
    ensures ReceivedTotal(t.receipts, o, n) <= LimitTotal(t.orders[o].lines, tolerance, n)
  {
    if n != 0 {
      ReceivedUnderLimits(t, o, tolerance, n - 1);
      LimitIsTheCeiling(t.orders[o].lines[n - 1].ordered, tolerance, ReceivedQuantity(t.receipts, o, n - 1));
    }
  }

  /** In every reachable state an order has no more receipts than the thousandths it may ever accept. */
  lemma ReceiptsAreBounded(t: Tables, o: nat, tolerance: int)
    requires Arrives(t, tolerance) && o < |t.orders|
    ensures Room(t, o, tolerance) >= 0
    ensures SumOf(CountsFor(o), t.receipts) + Room(t, o, tolerance) <= LimitTotal(t.orders[o].lines, tolerance, |t.orders[o].lines|)
  {
    assert OrderArrives(t, o, tolerance);
    ReceivedUnderLimits(t, o, tolerance, |t.orders[o].lines|);
    ReceiptsAreNoMoreThanReceived(t, t.receipts, o);
  }

  /** Every committed receipt uses up exactly what it brought, and at least something: no order can be received against for ever. */
  lemma ReceivingUsesUpRoom(t: Tables, o: nat, date: Option<int>, raw: seq<RawLine>, tolerance: int)
    requires Arrives(t, tolerance) && o < |t.orders| && CreateGoodsReceipt(t, o, date, raw, tolerance).Done?
    ensures
      var t' := CreateGoodsReceipt(t, o, date, raw, tolerance).value;
      var brought := SumOf(Quantity(), t'.receipts[|t.receipts|].lines);
      Room(t', o, tolerance) == Room(t, o, tolerance) - brought && brought > 0
  {
    ReceiptShape(t, o, date, raw, tolerance);
    assert OrderArrives(t, o, tolerance);
    PricedWithinLimit(t, o, raw, tolerance, 0);
    var lines := PriceReceiptLines(t, o, raw, tolerance).value;
    var t' := CreateGoodsReceipt(t, o, date, raw, tolerance).value;
    ReceivedTotalSnoc(t.receipts, t'.receipts[|t.receipts|], o, |t.orders[o].lines|);
    LinesAddUp(lines, |t.orders[o].lines|);
    SomethingArrives(lines);
  }

  // ------------------------------------------------------------------ what an order costs

  /** Everything ordered on the first `n` lines, submitted as one receipt. */
  function Everything(po: PurchaseOrder, o: nat, n: nat): seq<RawLine>
    requires n <= |po.lines|
  {
    if n == 0 then [] else Everything(po, o, n - 1) + [RawLine(o, n - 1, po.lines[n - 1].ordered)]
  }

  /** A line received in the quantity ordered is priced as it was agreed. */
  lemma PricedAsAgreed(po: PurchaseOrder, o: nat, l: nat)
    requires Costed(po) && l < |po.lines|
    ensures var (r, a) := (PriceLine(po, RawLine(o, l, po.lines[l].ordered)), po.lines[l]);
            r.taxable == a.taxable && r.tax == a.tax && r.total == a.total
  {
    var a := po.lines[l];
    assert Agreed(a);
    HalfUpIsNearest(a.unitCost * a.ordered, 1000, a.taxable);
    HalfUpIsNearest(a.taxable * a.taxRate, 10000, a.tax);
  }

  /** The next line, whole, of an order nothing has come for: accepted, and priced after the others. */
  lemma WholeLineIsAccepted(t: Tables, o: nat, tolerance: int, front: seq<RawLine>)
    requires o < |t.orders| && Costed(t.orders[o]) && NothingArrived(t, o) && tolerance >= 0 && |front| < |t.orders[o].lines|
    requires (forall i :: 0 <= i < |front| ==> front[i].line == i) && PriceReceiptLines(t, o, front, tolerance).Done?
    ensures
      var last := RawLine(o, |front|, t.orders[o].lines[|front|].ordered);
      PriceReceiptLines(t, o, front + [last], tolerance)
      == Done(PriceReceiptLines(t, o, front, tolerance).value + [PriceLine(t.orders[o], last)])
  {
    var last := RawLine(o, |front|, t.orders[o].lines[|front|].ordered);
    assert (front + [last])[..|front|] == front;
    assert Agreed(t.orders[o].lines[|front|]);
    NothingReceivedYet(t.receipts, o, |front|);
    LimitCoversOrdered(last.quantity, tolerance);
    assert LineAccepted(t, o, last, Seen(front), tolerance);
  }

  /** The receipt's lines when the first `n` come whole. */
  function WholeLines(po: PurchaseOrder, o: nat, n: nat): seq<ReceiptLine>
    requires n <= |po.lines|
  {
    if n == 0 then [] else WholeLines(po, o, n - 1) + [PriceLine(po, RawLine(o, n - 1, po.lines[n - 1].ordered))]
  }

  lemma {:induction false} EverythingIsAccepted(t: Tables, o: nat, tolerance: int, n: nat)
    requires o < |t.orders| && Costed(t.orders[o]) && NothingArrived(t, o) && tolerance >= 0 && n <= |t.orders[o].lines|
    ensures
      var raw := Everything(t.orders[o], o, n);
      && |raw| == n && (forall i :: 0 <= i < n ==> raw[i].line == i)
      && PriceReceiptLines(t, o, raw, tolerance) == Done(WholeLines(t.orders[o], o, n))
  {
    if n != 0 {
      EverythingIsAccepted(t, o, tolerance, n - 1);
      WholeLineIsAccepted(t, o, tolerance, Everything(t.orders[o], o, n - 1));
    }
  }

  lemma {:induction false} WholeLinesCostTheOrder(po: PurchaseOrder, o: nat, n: nat)
    requires Costed(po) && n <= |po.lines|
    ensures ReceiptTotals(WholeLines(po, o, n)) == OrderTotals(po.lines[..n])
  {
    if n != 0 {
      WholeLinesCostTheOrder(po, o, n - 1);
      var lines, line := WholeLines(po, o, n - 1), PriceLine(po, RawLine(o, n - 1, po.lines[n - 1].ordered));
      PricedAsAgreed(po, o, n - 1);
      assert po.lines[..n] == po.lines[..n - 1] + [po.lines[n - 1]];
      HeaderSnoc(po.lines[..n - 1], po.lines[n - 1], lines, line);
    }
  }

  /** Both kinds of header grow by the line that is added. */
  lemma HeaderSnoc(lines: seq<PurchaseLine>, l: PurchaseLine, received: seq<ReceiptLine>, r: ReceiptLine)
    ensures
      var (h, g) := (OrderTotals(lines), ReceiptTotals(received));
      && OrderTotals(lines + [l]) == Totals(h.subtotal + l.taxable, h.tax + l.tax, h.total + l.total)
      && ReceiptTotals(received + [r]) == Totals(g.subtotal + r.taxable, g.tax + r.tax, g.total + r.total)
  {
    SumOfSnoc(AgreedTaxable(), lines, l);
    SumOfSnoc(AgreedTax(), lines, l);
    SumOfSnoc(AgreedTotal(), lines, l);
    SumOfSnoc(LineTaxable(), received, r);
    SumOfSnoc(LineTax(), received, r);
    SumOfSnoc(LineTotal(), received, r);
  }

  lemma {:induction false} WholeLinesBringTheOrder(po: PurchaseOrder, o: nat, n: nat, l: nat)
    requires n <= |po.lines|
    ensures SumOf(OnLine(l), WholeLines(po, o, n)) == if l < n then po.lines[l].ordered else 0
  {
    if n != 0 {
      WholeLinesBringTheOrder(po, o, n - 1, l);
      SumOfSnoc(OnLine(l), WholeLines(po, o, n - 1), PriceLine(po, RawLine(o, n - 1, po.lines[n - 1].ordered)));
    }
  }

  /** What one payable row says. */
  function Payable(t: Tables, supplier: int, amount: int, date: int): SupplierRow {
    SupplierRow(supplier, Entry(|t.ledger| + 1, date, GOODS_RECEIPT, amount, "Goods receipt", GOODS_RECEIPT, Some(|t.receipts| + 1)))
  }

  /** An issued order received in full in one go is accepted, becomes RECEIVED, and costs to the paisa what was agreed. */
  lemma ReceivedInFull(t: Tables, o: nat, date: int, tolerance: int)
    requires Arrives(t, tolerance) && tolerance >= 0 && o < |t.orders| && t.orders[o].status == ISSUED && t.orders[o].orderDate <= date
    ensures
      var po := t.orders[o];
      var r := CreateGoodsReceipt(t, o, Some(date), Everything(po, o, |po.lines|), tolerance);
      && r.Done? && r.value.orders[o] == po.(status := RECEIVED)
      && |r.value.receipts| == |t.receipts| + 1 && r.value.receipts[|t.receipts|].totals == po.totals
      && r.value.ledger == if po.totals.total == 0 then t.ledger else t.ledger + [Payable(t, po.supplier, po.totals.total, date)]
  {
    var po := t.orders[o];
    var n, raw := |po.lines|, Everything(po, o, |po.lines|);
    assert OrderArrives(t, o, tolerance);
    EverythingIsAccepted(t, o, tolerance, n);
    WholeLinesCostTheOrder(po, o, n);
    assert po.lines[..n] == po.lines;
    PricedWithinLimit(t, o, raw, tolerance, 0);
    var lines := PriceReceiptLines(t, o, raw, tolerance).value;
    NothingIsOwedBack(lines, po);
    var receipt := Receipt(o, po.supplier, date, lines, ReceiptTotals(lines));
    var receipts := t.receipts + [receipt];
    forall l | 0 <= l < n ensures LineMet(po, receipts, o, l) {
      NothingReceivedYet(t.receipts, o, l);
      WholeLinesBringTheOrder(po, o, n, l);
      SumOfSnoc(AgainstLine(o, l), t.receipts, receipt);
    }
    assert AllMet(po, receipts, o);
  }

  lemma {:induction false} NothingIsOwedBack(lines: seq<ReceiptLine>, po: PurchaseOrder)
    requires AllBooked(lines, po)
    ensures ReceiptTotals(lines).total >= 0
  {
    if |lines| != 0 { NothingIsOwedBack(lines[..|lines| - 1], po); }
  }

  function CostOn(l: nat): ReceiptLine -> int { (r: ReceiptLine) => if r.line == l then r.taxable else 0 }

  function OneOn(l: nat): ReceiptLine -> int { (r: ReceiptLine) => if r.line == l then 1 else 0 }

  function CostAgainst(o: nat, l: nat): Receipt -> int { (r: Receipt) => if r.order == o then SumOf(CostOn(l), r.lines) else 0 }

  function OneAgainst(o: nat, l: nat): Receipt -> int { (r: Receipt) => if r.order == o then SumOf(OneOn(l), r.lines) else 0 }

  /** Cost before tax of everything received on one line, and over how many deliveries it came. */
  function ReceivedCost(receipts: seq<Receipt>, o: nat, l: nat): int { SumOf(CostAgainst(o, l), receipts) }

  function Deliveries(receipts: seq<Receipt>, o: nat, l: nat): int { SumOf(OneAgainst(o, l), receipts) }

  /** `cost` is `quantity` at `unitCost`, give or take half a paisa for each of `times` roundings. */
  predicate Tracks(unitCost: int, quantity: int, cost: int, times: int) {
    -1000 * times <= 2 * (unitCost * quantity) - 2000 * cost <= 1000 * times
  }

  lemma TracksAdd(unitCost: int, q1: int, c1: int, n1: int, q2: int, c2: int, n2: int)
    requires Tracks(unitCost, q1, c1, n1) && Tracks(unitCost, q2, c2, n2)
    ensures Tracks(unitCost, q1 + q2, c1 + c2, n1 + n2)
  {
    assert unitCost * (q1 + q2) == unitCost * q1 + unitCost * q2;
  }

  lemma {:induction false} ReceiptTracks(lines: seq<ReceiptLine>, po: PurchaseOrder, l: nat)
    requires AllBooked(lines, po) && l < |po.lines|
    ensures Tracks(po.lines[l].unitCost, SumOf(OnLine(l), lines), SumOf(CostOn(l), lines), SumOf(OneOn(l), lines))
  {
    if |lines| != 0 {
      var front, last := lines[..|lines| - 1], lines[|lines| - 1];
      ReceiptTracks(front, po, l);
      assert Booked(last, po);
      if last.line == l {
        TracksAdd(po.lines[l].unitCost, SumOf(OnLine(l), front), SumOf(CostOn(l), front), SumOf(OneOn(l), front), last.quantity, last.taxable, 1);
      }
    }
  }

  lemma {:induction false} ReceiptsTrack(t: Tables, receipts: seq<Receipt>, o: nat, l: nat)
    requires o < |t.orders| && l < |t.orders[o].lines| && receipts <= t.receipts && forall r :: 0 <= r < |t.receipts| ==> ReceiptFits(t, r)
    ensures Tracks(t.orders[o].lines[l].unitCost, ReceivedQuantity(receipts, o, l), ReceivedCost(receipts, o, l), Deliveries(receipts, o, l))
  {
    if |receipts| != 0 {
      var front, last := receipts[..|receipts| - 1], receipts[|receipts| - 1];
      ReceiptsTrack(t, front, o, l);
      assert last == t.receipts[|receipts| - 1] && ReceiptFits(t, |receipts| - 1);
      if last.order == o {
        ReceiptTracks(last.lines, t.orders[o], l);
        TracksAdd(t.orders[o].lines[l].unitCost, ReceivedQuantity(front, o, l), ReceivedCost(front, o, l), Deliveries(front, o, l),
                  SumOf(OnLine(l), last.lines), SumOf(CostOn(l), last.lines), SumOf(OneOn(l), last.lines));
      }
    }
  }

  /**
   Each delivery rounds on its own: what has arrived of a line costs its quantity at the agreed price, give
   or take half a paisa a delivery. So a line that came whole over `k` deliveries costs, before tax, within
   (k + 1) / 2 paise of what was ordered.
   */
  lemma SplittingDriftsByHalfPaise(t: Tables, o: nat, l: nat, tolerance: int)
    requires Arrives(t, tolerance) && o < |t.orders| && l < |t.orders[o].lines|
    ensures
      var (line, k) := (t.orders[o].lines[l], Deliveries(t.receipts, o, l));
      && Tracks(line.unitCost, ReceivedQuantity(t.receipts, o, l), ReceivedCost(t.receipts, o, l), k)
      && (ReceivedQuantity(t.receipts, o, l) == line.ordered ==> 2 * Abs(ReceivedCost(t.receipts, o, l) - line.taxable) <= k + 1)
  {
    ReceiptsTrack(t, t.receipts, o, l);
    assert OrderArrives(t, o, tolerance) && Agreed(t.orders[o].lines[l]);
  }
}
