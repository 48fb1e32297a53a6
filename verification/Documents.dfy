/** From an entered line to a priced one: price, discount bound and tax, each rounded at line level. */
module Pricing {
  import opened Outcomes
  import opened Sums
  import opened Money

  datatype Product = Product(id: int, sellingPrice: int, taxRate: int, packSize: int, isActive: bool)

  /** What the database guarantees of a product row. */
  predicate Stocked(p: Product) { p.sellingPrice >= 0 && 0 <= p.taxRate <= 10000 && p.packSize >= 1 }

  datatype LineAmounts = LineAmounts(
    unitPrice: int, gross: int, discount: int, taxable: int, taxRate: int, tax: int, total: int)

  function Gross(unitPrice: int, quantity: int): int { HalfUp(unitPrice * quantity, 1000) }

  function MaxDiscount(gross: int, maxPercent: int): int { HalfUp(gross * maxPercent, 10000) }

  function ComputeLine(product: Product, quantity: int, discount: int, maxPercent: int): Outcome<LineAmounts> {
    var gross := Gross(product.sellingPrice, quantity);
    if discount < 0 || discount > MaxDiscount(gross, maxPercent) then Refused(VALIDATION_FAILED)
    else
      var taxable := gross - discount;
      var tax := HalfUp(taxable * product.taxRate, 10000);
      Done(LineAmounts(product.sellingPrice, gross, discount, taxable, product.taxRate, tax, taxable + tax))
  }

  /** One line as a caller states it: base units or packs, never both and never neither. */
  datatype RawLine = RawLine(product: Product, quantity: Option<int>, packQuantity: Option<int>, discount: int)

  datatype OrderLine = OrderLine(
    product: int, quantity: int, packQuantity: Option<int>,
    unitPrice: int, discount: int, taxable: int, taxRate: int, tax: int, total: int)

  /** The quantity in thousandths of the base unit, and the packs it was entered as. */
  function EnteredQuantity(raw: RawLine): Outcome<(int, Option<int>)> {
    if raw.quantity.Some? && raw.packQuantity.Some? then Refused(VALIDATION_FAILED)
    else if raw.quantity.None? && raw.packQuantity.None? then Refused(VALIDATION_FAILED)
    else if raw.packQuantity.Some? then Done((raw.packQuantity.value * raw.product.packSize, raw.packQuantity))
    else Done((raw.quantity.value, None))
  }

  function PriceLine(raw: RawLine, maxPercent: int): Outcome<OrderLine> {
    if !raw.product.isActive then Refused(VALIDATION_FAILED)
    else
      match EnteredQuantity(raw)
      case Refused(code) => Refused(code)
      case Done(entered) =>
        if entered.0 <= 0 then Refused(VALIDATION_FAILED)
        else
          match ComputeLine(raw.product, entered.0, raw.discount, maxPercent)
          case Refused(code) => Refused(code)
          case Done(a) =>
            Done(OrderLine(raw.product.id, entered.0, entered.1, a.unitPrice, a.discount, a.taxable, a.taxRate, a.tax, a.total))
  }

  /** A line whose money follows from its own price, quantity, discount and rate. */
  predicate Priced(l: OrderLine) {
    && l.quantity > 0 && l.unitPrice >= 0
    && 0 <= l.discount <= Gross(l.unitPrice, l.quantity)
    && l.taxable == Gross(l.unitPrice, l.quantity) - l.discount
    && 0 <= l.taxRate <= 10000
    && Nearest(l.taxable * l.taxRate, 10000, l.tax)
    && 0 <= l.tax <= l.taxable
    && l.total == l.taxable + l.tax
  }

  /** `quantity` and `packs` are what was entered: packs count for their size in base units, and only one of the two is stated. */
  predicate EnteredAs(raw: RawLine, quantity: int, packs: Option<int>) {
    if raw.packQuantity.Some?
    then raw.quantity.None? && quantity == raw.packQuantity.value * raw.product.packSize && packs == raw.packQuantity
    else raw.quantity == Some(quantity) && packs.None?
  }

  /** A discount between nothing and the ceiling: the permitted percentage of `gross`, to the nearest paisa. */
  predicate DiscountAllowed(discount: int, gross: int, maxPercent: int) { 0 <= discount && 20000 * discount <= 2 * (gross * maxPercent) + 10000 }

  /** The product is sold, one quantity and not both is entered, it comes to something, and the discount is allowed on its gross value. */
  ghost predicate Acceptable(raw: RawLine, maxPercent: int) {
    raw.product.isActive
    && exists quantity, packs, gross ::
         && EnteredAs(raw, quantity, packs) && quantity > 0 && Nearest(raw.product.sellingPrice * quantity, 1000, gross)
         && DiscountAllowed(raw.discount, gross, maxPercent)
  }

  /**
   A line is accepted exactly when its product is sold, one quantity and not both is entered, it comes to something,
   and the discount is allowed on its gross value. Then it is priced, and holds what was entered.
   */
  lemma AcceptedLinesArePriced(raw: RawLine, maxPercent: int)
    requires Stocked(raw.product) && 0 <= maxPercent <= 10000
    ensures var r := PriceLine(raw, maxPercent);
            r.Done? ==>
              && Priced(r.value) && r.value.product == raw.product.id
              && r.value.unitPrice == raw.product.sellingPrice && r.value.taxRate == raw.product.taxRate && r.value.discount == raw.discount
              && EnteredAs(raw, r.value.quantity, r.value.packQuantity)
    ensures PriceLine(raw, maxPercent).Done? <==> Acceptable(raw, maxPercent)
  {
    var r := PriceLine(raw, maxPercent);
    if r.Done? {
      var l := r.value;
      GrossIsNearest(l.unitPrice, l.quantity);
      ProductWithin(l.unitPrice, l.quantity, l.quantity);
      HalfUpMonotone(0, l.unitPrice * l.quantity, 1000);
      HalfUpExact(0, 1000);
      PartIsWithin(Gross(l.unitPrice, l.quantity), maxPercent);
      PartIsWithin(l.taxable, l.taxRate);
      assert EnteredAs(raw, l.quantity, l.packQuantity) && DiscountAllowed(raw.discount, Gross(l.unitPrice, l.quantity), maxPercent);
    }
    if Acceptable(raw, maxPercent) {
      var quantity, packs, gross :| && EnteredAs(raw, quantity, packs) && quantity > 0
                                    && Nearest(raw.product.sellingPrice * quantity, 1000, gross) && DiscountAllowed(raw.discount, gross, maxPercent);
      HalfUpIsNearest(raw.product.sellingPrice * quantity, 1000, gross);
      ProductWithin(raw.product.sellingPrice, quantity, quantity);
      HalfUpMonotone(0, raw.product.sellingPrice * quantity, 1000);
      HalfUpExact(0, 1000);
      PartIsWithin(gross, maxPercent);
    }
  }

  lemma GrossIsNearest(unitPrice: int, quantity: int)
    ensures Nearest(unitPrice * quantity, 1000, Gross(unitPrice, quantity))
  {
    HalfUpBounds(unitPrice * quantity, 1000);
  }

  /** The same line but for how it was entered. */
  predicate SameGoods(a: OrderLine, b: OrderLine) { b == a.(packQuantity := b.packQuantity) }

  /** So many packs, or as many base units as they hold: accepted alike, at the same money, for the same goods. */
  lemma PacksAreTheirUnits(product: Product, packs: int, discount: int, maxPercent: int)
    ensures
      var (inPacks, inUnits) := (PriceLine(RawLine(product, None, Some(packs), discount), maxPercent),
                                 PriceLine(RawLine(product, Some(packs * product.packSize), None, discount), maxPercent));
      && (inPacks.Done? <==> inUnits.Done?)
      && (inPacks.Done? ==>
            SameGoods(inPacks.value, inUnits.value) && inPacks.value.packQuantity == Some(packs) && inUnits.value.packQuantity.None?)
  {
  }

  lemma ProductWithin(a: int, b: int, c: int)
    requires a >= 0 && 0 <= b <= c
    ensures 0 <= a * b <= a * c
  {
  }

  /** A percentage of an amount, rounded, lies between nothing and the amount. */
  lemma PartIsWithin(amount: int, percent: int)
    requires amount >= 0 && 0 <= percent <= 10000
    ensures 0 <= HalfUp(amount * percent, 10000) <= amount && Nearest(amount * percent, 10000, HalfUp(amount * percent, 10000))
    ensures amount * percent >= 0
  {
    ProductWithin(amount, percent, 10000);
    HalfUpWithin(amount * percent, amount, 10000);
    HalfUpBounds(amount * percent, 10000);
  }

  /** Every line in turn; the first refusal refuses the whole order. */
  function PricedLines(raw: seq<RawLine>, maxPercent: int): Outcome<seq<OrderLine>> {
    if |raw| == 0 then Done([])
    else
      match PricedLines(raw[..|raw| - 1], maxPercent)
      case Refused(code) => Refused(code)
      case Done(lines) =>
        match PriceLine(raw[|raw| - 1], maxPercent)
        case Refused(code) => Refused(code)
        case Done(line) => Done(lines + [line])
  }

  lemma {:induction false} RefusalIsFinal(raw: seq<RawLine>, maxPercent: int, i: nat)
    requires i <= |raw| && PricedLines(raw[..i], maxPercent).Refused?
    ensures PricedLines(raw, maxPercent) == PricedLines(raw[..i], maxPercent)
    decreases |raw| - i
  {
    if i < |raw| {
      assert raw[..i + 1][..i] == raw[..i];
      RefusalIsFinal(raw, maxPercent, i + 1);
    } else {
      assert raw[..i] == raw;
    }
  }

  lemma {:induction false} PricedLinesArePriced(raw: seq<RawLine>, maxPercent: int)
    requires (forall i :: 0 <= i < |raw| ==> Stocked(raw[i].product)) && 0 <= maxPercent <= 10000
    ensures var r := PricedLines(raw, maxPercent);
            r.Done? ==>
              && |r.value| == |raw|
              && forall i :: 0 <= i < |raw| ==>
                   && Priced(r.value[i]) && EnteredAs(raw[i], r.value[i].quantity, r.value[i].packQuantity)
                   && r.value[i].product == raw[i].product.id && r.value[i].unitPrice == raw[i].product.sellingPrice
                   && r.value[i].taxRate == raw[i].product.taxRate && r.value[i].discount == raw[i].discount
  {
    if |raw| != 0 {
      PricedLinesArePriced(raw[..|raw| - 1], maxPercent);
      AcceptedLinesArePriced(raw[|raw| - 1], maxPercent);
    }
  }

  /** An order's lines are priced exactly when every one of them is acceptable. */
  lemma {:induction false} OrderPricedExactlyWhen(raw: seq<RawLine>, maxPercent: int)
    requires (forall i :: 0 <= i < |raw| ==> Stocked(raw[i].product)) && 0 <= maxPercent <= 10000
    ensures PricedLines(raw, maxPercent).Done? <==> forall i :: 0 <= i < |raw| ==> Acceptable(raw[i], maxPercent)
  {
    if |raw| != 0 {
      OrderPricedExactlyWhen(raw[..|raw| - 1], maxPercent);
      AcceptedLinesArePriced(raw[|raw| - 1], maxPercent);
      assert forall i :: 0 <= i < |raw| - 1 ==> raw[..|raw| - 1][i] == raw[i];
    }
  }

  /** An order's money, summed from already-rounded lines. */
  datatype OrderTotals = OrderTotals(subtotal: int, discount: int, tax: int, total: int)

  function LineGross(): OrderLine -> int { (l: OrderLine) => Gross(l.unitPrice, l.quantity) }
  function LineDiscount(): OrderLine -> int { (l: OrderLine) => l.discount }
  function LineTaxable(): OrderLine -> int { (l: OrderLine) => l.taxable }
  function LineTax(): OrderLine -> int { (l: OrderLine) => l.tax }
  function LineTotal(): OrderLine -> int { (l: OrderLine) => l.total }

  function TotalsOf(lines: seq<OrderLine>): OrderTotals {
    OrderTotals(SumOf(LineGross(), lines), SumOf(LineDiscount(), lines), SumOf(LineTax(), lines), SumOf(LineTotal(), lines))
  }

  /** An order's totals start from nothing, and each line adds its own gross value to the nearest paisa, its discount, its tax and its total. */
  lemma TotalsFollowTheLines(lines: seq<OrderLine>, l: OrderLine)
    ensures
      var (before, after) := (TotalsOf(lines), TotalsOf(lines + [l]));
      && after.discount - before.discount == l.discount && after.tax - before.tax == l.tax && after.total - before.total == l.total
      && Nearest(l.unitPrice * l.quantity, 1000, after.subtotal - before.subtotal)
      && TotalsOf([]) == OrderTotals(0, 0, 0, 0)
  {
    SumOfSnoc(LineGross(), lines, l);
    SumOfSnoc(LineDiscount(), lines, l);
    SumOfSnoc(LineTax(), lines, l);
    SumOfSnoc(LineTotal(), lines, l);
    GrossIsNearest(l.unitPrice, l.quantity);
  }

  /** Rebuild every line of an order, then its totals. */
  method ReplaceLines(raw: seq<RawLine>, maxPercent: int) returns (r: Outcome<(seq<OrderLine>, OrderTotals)>)
    ensures PricedLines(raw, maxPercent).Refused? ==> r == Refused(PricedLines(raw, maxPercent).code)
    ensures PricedLines(raw, maxPercent).Done? ==>
              r == Done((PricedLines(raw, maxPercent).value, TotalsOf(PricedLines(raw, maxPercent).value)))
  {
    var lines: seq<OrderLine> := [];
    var i := 0;
    while i < |raw|
      invariant 0 <= i <= |raw|
      invariant PricedLines(raw[..i], maxPercent) == Done(lines)
    {
      assert raw[..i + 1][..i] == raw[..i];
      var line := PriceLine(raw[i], maxPercent);
      if line.Refused? {
        RefusalIsFinal(raw, maxPercent, i + 1);
        return Refused(line.code);
      }
      lines := lines + [line.value];
      i := i + 1;
    }
    assert raw[..i] == raw;
    var totals := RecalculateTotals(lines);
    r := Done((lines, totals));
  }

  method RecalculateTotals(lines: seq<OrderLine>) returns (t: OrderTotals)
    ensures t == TotalsOf(lines)
  {
    var subtotal, discount, tax, total := 0, 0, 0, 0;
    var i := 0;
    while i < |lines|
      invariant 0 <= i <= |lines|
      invariant OrderTotals(subtotal, discount, tax, total) == TotalsOf(lines[..i])
    {
      assert lines[..i + 1] == lines[..i] + [lines[i]];
      SumOfSnoc(LineGross(), lines[..i], lines[i]);
      SumOfSnoc(LineDiscount(), lines[..i], lines[i]);
      SumOfSnoc(LineTax(), lines[..i], lines[i]);
      SumOfSnoc(LineTotal(), lines[..i], lines[i]);
      subtotal := subtotal + Gross(lines[i].unitPrice, lines[i].quantity);
      discount := discount + lines[i].discount;
      tax := tax + lines[i].tax;
      total := total + lines[i].total;
      i := i + 1;
    }
    assert lines[..i] == lines;
    t := OrderTotals(subtotal, discount, tax, total);
  }
}

/** The arithmetic of an invoice and of the credit notes against it. */
module Documents {
  import opened Outcomes
  import opened Sums
  import opened Money
  import opened Pricing

  datatype Gst = Gst(cgst: int, sgst: int, igst: int)

  /** One tax figure as the CGST/SGST pair, the second half by subtraction, or a single IGST. */
  function SplitTax(tax: int, intraState: bool): Gst {
    if intraState then Gst(HalfUp(tax, 2), tax - HalfUp(tax, 2), 0) else Gst(0, 0, tax)
  }

  function Payable(raw: int): int { HalfUp(raw, 100) * 100 }

  datatype Header = Header(
    subtotal: int, discount: int, taxable: int, gst: Gst, roundOff: int, total: int)

  datatype DocumentLine = DocumentLine(
    product: int, quantity: int, unitPrice: int, discount: int, taxable: int, taxRate: int, gst: Gst, total: int)

  function MakeHeader(subtotal: int, discount: int, taxable: int, tax: int, intraState: bool): Header {
    var payable := Payable(taxable + tax);
    Header(subtotal, discount, taxable, SplitTax(tax, intraState), payable - (taxable + tax), payable)
  }

  function InvoiceHeader(lines: seq<OrderLine>, intraState: bool): Header {
    MakeHeader(SumOf(LineGross(), lines), SumOf(LineDiscount(), lines), SumOf(LineTaxable(), lines), SumOf(LineTax(), lines), intraState)
  }

  function InvoiceLine(l: OrderLine, intraState: bool): DocumentLine {
    DocumentLine(l.product, l.quantity, l.unitPrice, l.discount, l.taxable, l.taxRate, SplitTax(l.tax, intraState), l.total)
  }

  function InvoiceLines(lines: seq<OrderLine>, intraState: bool): seq<DocumentLine> {
    if |lines| == 0 then [] else InvoiceLines(lines[..|lines| - 1], intraState) + [InvoiceLine(lines[|lines| - 1], intraState)]
  }

  /** The figures of the invoice, accumulated line by line from the order's own snapshots. */
  method PrepareInvoice(lines: seq<OrderLine>, intraState: bool) returns (header: Header, documentLines: seq<DocumentLine>)
    ensures header == InvoiceHeader(lines, intraState)
    ensures documentLines == InvoiceLines(lines, intraState)
  {
    var subtotal, discount, taxable, tax := 0, 0, 0, 0;
    documentLines := [];
    var i := 0;
    while i < |lines|
      invariant 0 <= i <= |lines|
      invariant subtotal == SumOf(LineGross(), lines[..i]) && discount == SumOf(LineDiscount(), lines[..i])
      invariant taxable == SumOf(LineTaxable(), lines[..i]) && tax == SumOf(LineTax(), lines[..i])
      invariant documentLines == InvoiceLines(lines[..i], intraState)
    {
      assert lines[..i + 1][..i] == lines[..i];
      subtotal := subtotal + Gross(lines[i].unitPrice, lines[i].quantity);
      discount := discount + lines[i].discount;
      taxable := taxable + lines[i].taxable;
      tax := tax + lines[i].tax;
      documentLines := documentLines + [InvoiceLine(lines[i], intraState)];
      i := i + 1;
    }
    assert lines[..i] == lines;
    header := MakeHeader(subtotal, discount, taxable, tax, intraState);
  }

  // ------------------------------------------------------------------ what every document satisfies

  /** The rupee rounding: a whole rupee, at most half a rupee away, and a tie goes up. */
  lemma PayableIsNearestRupee(raw: int)
    requires raw >= 0
    ensures Payable(raw) % 100 == 0 && -50 < Payable(raw) - raw <= 50 && Payable(raw) >= 0
  {
    HalfUpBounds(raw, 100);
    HalfUpMonotone(0, raw, 100);
  }

  /** The halves of an intra-state tax sum to it exactly and differ by at most a paisa. */
  lemma HalvesReconcile(tax: int)
    requires tax >= 0
    ensures var g := SplitTax(tax, true);
            g.cgst + g.sgst == tax && g.cgst - g.sgst == tax % 2 && g.sgst >= 0
  {
    HalfUpBounds(tax, 2);
  }

  predicate AllPriced(lines: seq<OrderLine>) { forall i :: 0 <= i < |lines| ==> Priced(lines[i]) }

  lemma {:induction false} LineSums(lines: seq<OrderLine>)
    requires AllPriced(lines)
    ensures SumOf(LineGross(), lines) - SumOf(LineDiscount(), lines) == SumOf(LineTaxable(), lines)
    ensures SumOf(LineTotal(), lines) == SumOf(LineTaxable(), lines) + SumOf(LineTax(), lines)
    ensures SumOf(LineTaxable(), lines) >= SumOf(LineTax(), lines) >= 0 && SumOf(LineDiscount(), lines) >= 0
  {
    if |lines| != 0 { LineSums(lines[..|lines| - 1]); }
  }

  /**
   Every figure on an invoice reconciles: subtotal less discount is taxable, the parts sum to the
   total, the total is a whole rupee at most half a rupee from the order's own total, and the two
   kinds of GST exclude each other.
   */
  lemma InvoiceReconciles(lines: seq<OrderLine>, intraState: bool)
    requires AllPriced(lines)
    ensures
      var h := InvoiceHeader(lines, intraState);
      && h.subtotal - h.discount == h.taxable
      && h.taxable + h.gst.cgst + h.gst.sgst + h.gst.igst + h.roundOff == h.total
      && h.total % 100 == 0 && -50 < h.roundOff <= 50
      && (h.gst.igst == 0 || (h.gst.cgst == 0 && h.gst.sgst == 0))
      && h.total == TotalsOf(lines).total + h.roundOff
      && h.subtotal == TotalsOf(lines).subtotal && h.discount == TotalsOf(lines).discount
      && h.total >= 0 && h.gst.cgst >= h.gst.sgst >= 0 && h.gst.igst >= 0
  {
    LineSums(lines);
    PayableIsNearestRupee(SumOf(LineTaxable(), lines) + SumOf(LineTax(), lines));
    HalvesReconcile(SumOf(LineTax(), lines));
  }

  /** Each invoice line shows its order line's own figures, and that line's tax in one kind of GST. */
  lemma {:induction false} InvoiceLinesAreTheOrders(lines: seq<OrderLine>, intraState: bool, i: nat)
    requires i < |lines| && Priced(lines[i])
    ensures |InvoiceLines(lines, intraState)| == |lines|
    ensures
      var (d, l) := (InvoiceLines(lines, intraState)[i], lines[i]);
      && d.product == l.product && d.quantity == l.quantity && d.unitPrice == l.unitPrice && d.discount == l.discount
      && d.taxable == l.taxable && d.taxRate == l.taxRate && d.total == l.total
      && d.gst.cgst + d.gst.sgst + d.gst.igst == l.tax && SplitFor(d.gst, intraState)
  {
    var n := |lines| - 1;
    if i < n {
      InvoiceLinesAreTheOrders(lines[..n], intraState, i);
    } else {
      SameLength(lines[..n], intraState);
      HalvesReconcile(lines[i].tax);
    }
  }

  lemma {:induction false} SameLength(lines: seq<OrderLine>, intraState: bool)
    ensures |InvoiceLines(lines, intraState)| == |lines|
  {
    if |lines| != 0 { SameLength(lines[..|lines| - 1], intraState); }
  }

  function LineCgst(): DocumentLine -> int { (l: DocumentLine) => l.gst.cgst }
  function LineSgst(): DocumentLine -> int { (l: DocumentLine) => l.gst.sgst }
  function LineIgst(): DocumentLine -> int { (l: DocumentLine) => l.gst.igst }
  function OddTax(): OrderLine -> int { (l: OrderLine) => l.tax % 2 }

  lemma {:induction false} SplitSums(lines: seq<OrderLine>, intraState: bool)
    requires AllPriced(lines)
    ensures
      var (document, tax, odd) := (InvoiceLines(lines, intraState), SumOf(LineTax(), lines), SumOf(OddTax(), lines));
      && |document| == |lines|
      && (!intraState ==> SumOf(LineIgst(), document) == tax && SumOf(LineCgst(), document) == SumOf(LineSgst(), document) == 0)
      && (intraState ==>
            && 2 * SumOf(LineCgst(), document) == tax + odd && 2 * SumOf(LineSgst(), document) == tax - odd
            && SumOf(LineIgst(), document) == 0)
      && 0 <= odd <= |lines|
  {
    if |lines| != 0 {
      var last := lines[|lines| - 1];
      SplitSums(lines[..|lines| - 1], intraState);
      HalvesReconcile(last.tax);
      var front := InvoiceLines(lines[..|lines| - 1], intraState);
      SumOfSnoc(LineCgst(), front, InvoiceLine(last, intraState));
      SumOfSnoc(LineSgst(), front, InvoiceLine(last, intraState));
      SumOfSnoc(LineIgst(), front, InvoiceLine(last, intraState));
    }
  }

  /**
   The header splits the summed tax while each line splits its own, so the two differ, by exactly
   half the number of odd-tax lines, rounded down; SGST differs by as much the other way, and IGST
   not at all. The lines and the header agree exactly when at most one line has an odd tax.
   */
  lemma HeaderAgainstLines(lines: seq<OrderLine>, intraState: bool)
    requires AllPriced(lines)
    ensures
      var (h, document, odd) := (InvoiceHeader(lines, intraState), InvoiceLines(lines, intraState), SumOf(OddTax(), lines));
      && SumOf(LineIgst(), document) == h.gst.igst
      && SumOf(LineCgst(), document) - h.gst.cgst == (if intraState then odd / 2 else 0)
      && h.gst.sgst - SumOf(LineSgst(), document) == (if intraState then odd / 2 else 0)
      && (intraState ==> (SumOf(LineCgst(), document) == h.gst.cgst <==> odd <= 1))
  {
    SplitSums(lines, intraState);
    LineSums(lines);
    HalvesReconcile(SumOf(LineTax(), lines));
  }

  /** Any two odd-tax lines, intra-state: the lines' CGST comes to a paisa more than the header's. */
  lemma TwoOddLinesDisagree(a: OrderLine, b: OrderLine)
    requires Priced(a) && Priced(b) && a.tax % 2 == 1 && b.tax % 2 == 1
    ensures SumOf(LineCgst(), InvoiceLines([a, b], true)) == InvoiceHeader([a, b], true).gst.cgst + 1
  {
    var lines := [a, b];
    assert lines == [a] + [b] && [a] == [] + [a];
    SumOfSnoc(OddTax(), [a], b);
    SumOfSnoc(OddTax(), [], a);
    HeaderAgainstLines(lines, true);
  }

  /** Such a line: ten paise at ten percent is one paisa of tax. */
  lemma AnOddLine()
    ensures var l := OrderLine(1, 1000, None, 10, 0, 10, 1000, 1, 11); Priced(l) && l.tax % 2 == 1
  {
    HalfUpExact(10, 1000);
  }

  // ------------------------------------------------------------------ credit notes

  /** One requested line: an invoice line of some invoice, and the quantity to credit, all of it by default. */
  datatype Request = Request(invoice: int, line: DocumentLine, quantity: Option<int>)

  function TaxOf(l: DocumentLine): int { l.gst.cgst + l.gst.sgst + l.gst.igst }

  /** The share of a line, each figure rounded on its own. */
  function CreditLine(source: DocumentLine, quantity: int, intraState: bool): DocumentLine
    requires source.quantity > 0
  {
    var taxable := HalfUp(source.taxable * quantity, source.quantity);
    var tax := HalfUp(TaxOf(source) * quantity, source.quantity);
    var discount := HalfUp(source.discount * quantity, source.quantity);
    DocumentLine(source.product, quantity, source.unitPrice, discount, taxable, source.taxRate, SplitTax(tax, intraState), taxable + tax)
  }

  function CreditOne(invoice: int, r: Request, intraState: bool): Outcome<DocumentLine>
    requires r.line.quantity > 0
  {
    var quantity := if r.quantity.Some? then r.quantity.value else r.line.quantity;
    if r.invoice != invoice then Refused(VALIDATION_FAILED)
    else if quantity <= 0 || quantity > r.line.quantity then Refused(VALIDATION_FAILED)
    else Done(CreditLine(r.line, quantity, intraState))
  }

  /** Invoice lines have positive quantities (`ck_invoice_line_qty`). */
  predicate Positive(requests: seq<Request>) { forall i :: 0 <= i < |requests| ==> requests[i].line.quantity > 0 }

  function CreditLines(invoice: int, requests: seq<Request>, intraState: bool): Outcome<seq<DocumentLine>>
    requires Positive(requests)
  {
    if |requests| == 0 then Done([])
    else
      match CreditLines(invoice, requests[..|requests| - 1], intraState)
      case Refused(code) => Refused(code)
      case Done(lines) =>
        match CreditOne(invoice, requests[|requests| - 1], intraState)
        case Refused(code) => Refused(code)
        case Done(line) => Done(lines + [line])
  }

  /** A credited line shows its share of the invoice's: every figure to the nearest paisa, a tie rounded up, and their sum. */
  predicate ShareOf(c: DocumentLine, source: DocumentLine, quantity: int) {
    && c.product == source.product && c.quantity == quantity && c.unitPrice == source.unitPrice && c.taxRate == source.taxRate
    && Nearest(source.taxable * quantity, source.quantity, c.taxable)
    && Nearest(source.discount * quantity, source.quantity, c.discount)
    && Nearest((source.gst.cgst + source.gst.sgst + source.gst.igst) * quantity, source.quantity, c.gst.cgst + c.gst.sgst + c.gst.igst)
    && c.total == c.taxable + c.gst.cgst + c.gst.sgst + c.gst.igst
  }

  /** One kind of GST only, and the halves a paisa apart at most. */
  predicate SplitFor(g: Gst, intraState: bool) {
    if intraState then g.igst == 0 && 0 <= g.cgst - g.sgst <= 1 else g.cgst == 0 && g.sgst == 0
  }

  lemma CreditLineIsItsShare(source: DocumentLine, quantity: int, intraState: bool)
    requires source.quantity > 0
    ensures var c := CreditLine(source, quantity, intraState);
            ShareOf(c, source, quantity) && (TaxOf(source) * quantity >= 0 ==> SplitFor(c.gst, intraState))
  {
    HalfUpBounds(source.taxable * quantity, source.quantity);
    HalfUpBounds(source.discount * quantity, source.quantity);
    var n := TaxOf(source) * quantity;
    HalfUpBounds(n, source.quantity);
    if n >= 0 {
      HalfUpExact(0, source.quantity);
      HalfUpMonotone(0, n, source.quantity);
      HalvesReconcile(HalfUp(n, source.quantity));
    }
  }

  /** The quantity a request asks for: what it states, or all of the line. */
  predicate AsksFor(r: Request, quantity: int) { if r.quantity.Some? then quantity == r.quantity.value else quantity == r.line.quantity }

  /** A request is in order exactly when its line is this invoice's and its quantity is positive and no more than was invoiced. */
  predicate InOrder(invoice: int, r: Request) { r.invoice == invoice && (r.quantity.Some? ==> 0 < r.quantity.value <= r.line.quantity) }

  /** A note is priced exactly when every request is in order, and then each of its lines is its share, whatever the quantity. */
  lemma {:induction false} CreditedLinesAreShares(invoice: int, requests: seq<Request>, intraState: bool)
    requires Positive(requests)
    ensures
      var r := CreditLines(invoice, requests, intraState);
      && (r.Done? <==> forall i :: 0 <= i < |requests| ==> InOrder(invoice, requests[i]))
      && (r.Done? ==>
            && |r.value| == |requests|
            && forall i :: 0 <= i < |requests| ==> AsksFor(requests[i], r.value[i].quantity) && ShareOf(r.value[i], requests[i].line, r.value[i].quantity))
  {
    if |requests| != 0 {
      var front, last := requests[..|requests| - 1], requests[|requests| - 1];
      CreditedLinesAreShares(invoice, front, intraState);
      var quantity := if last.quantity.Some? then last.quantity.value else last.line.quantity;
      assert AsksFor(last, quantity);
      CreditLineIsItsShare(last.line, quantity, intraState);
      assert CreditOne(invoice, last, intraState).Done? <==> InOrder(invoice, last);
      assert forall i :: 0 <= i < |front| ==> front[i] == requests[i];
    }
  }

  // ------------------------------------------------------------------ crediting a line over several notes

  /** `rounded` is `exact`, give or take half a unit of `d` for each of `k` roundings. */
  predicate WithinHalves(exact: int, d: int, rounded: int, k: int) { -(k * d) <= 2 * (d * rounded) - 2 * exact <= k * d }

  lemma HalvesAdd(exact: int, d: int, rounded: int, k: int, n: int, r: int)
    requires d > 0 && WithinHalves(exact, d, rounded, k) && Nearest(n, d, r)
    ensures WithinHalves(exact + n, d, rounded + r, k + 1)
  {
    assert d * (rounded + r) == d * rounded + d * r && (k + 1) * d == k * d + d && 2 * d * r == 2 * (d * r);
  }

  lemma HalvesCancel(whole: int, d: int, rounded: int, k: int)
    requires d > 0 && WithinHalves(whole * d, d, rounded, k)
    ensures -k <= 2 * (rounded - whole) <= k
  {
    assert d * rounded == rounded * d && 2 * (rounded * d) - 2 * (whole * d) == 2 * (rounded - whole) * d;
    NoLarger(2 * (rounded - whole), k, d);
    NoLarger(-k, 2 * (rounded - whole), d);
    assert -(k * d) == (-k) * d;
  }

  lemma NoLarger(x: int, y: int, d: int)
    requires d > 0
    ensures x * d <= y * d ==> x <= y
  {
    if x > y { assert x * d >= (y + 1) * d == y * d + d; }
  }

  lemma {:induction false} SharesStayClose(whole: int, d: int, f: DocumentLine -> int, notes: seq<DocumentLine>, quantities: seq<int>)
    requires d > 0 && |notes| == |quantities|
    requires forall i :: 0 <= i < |notes| ==> Nearest(whole * quantities[i], d, f(notes[i]))
    ensures WithinHalves(whole * Total(quantities), d, SumOf(f, notes), |notes|)
  {
    if |notes| != 0 {
      var n := |notes| - 1;
      var t, q := Total(quantities[..n]), quantities[n];
      SharesStayClose(whole, d, f, notes[..n], quantities[..n]);
      HalvesAdd(whole * t, d, SumOf(f, notes[..n]), n, whole * q, f(notes[n]));
      assert whole * (t + q) == whole * t + whole * q;
    }
  }

  /**
   A line credited over several notes whose quantities make up the whole of it is credited its own taxable
   value and its own tax, to within half a paisa a note.
   */
  lemma CreditedInParts(source: DocumentLine, notes: seq<DocumentLine>, quantities: seq<int>)
    requires source.quantity > 0 && |notes| == |quantities| && Total(quantities) == source.quantity
    requires forall i :: 0 <= i < |notes| ==> ShareOf(notes[i], source, quantities[i])
    ensures 2 * Abs(SumOf(DocTaxable(), notes) - source.taxable) <= |notes|
    ensures 2 * Abs(SumOf(DocTax(), notes) - TaxOf(source)) <= |notes|
  {
    forall i | 0 <= i < |notes|
      ensures Nearest(source.taxable * quantities[i], source.quantity, DocTaxable()(notes[i]))
      ensures Nearest(TaxOf(source) * quantities[i], source.quantity, DocTax()(notes[i]))
    {
      assert ShareOf(notes[i], source, quantities[i]);
    }
    SharesStayClose(source.taxable, source.quantity, DocTaxable(), notes, quantities);
    SharesStayClose(TaxOf(source), source.quantity, DocTax(), notes, quantities);
    HalvesCancel(source.taxable, source.quantity, SumOf(DocTaxable(), notes), |notes|);
    HalvesCancel(TaxOf(source), source.quantity, SumOf(DocTax(), notes), |notes|);
  }

  function DocGross(): DocumentLine -> int { (l: DocumentLine) => Gross(l.unitPrice, l.quantity) }
  function DocDiscount(): DocumentLine -> int { (l: DocumentLine) => l.discount }
  function DocTaxable(): DocumentLine -> int { (l: DocumentLine) => l.taxable }
  function DocTax(): DocumentLine -> int { (l: DocumentLine) => TaxOf(l) }

  /** Subtotal, discount, taxable and tax of a note's lines. */
  function CreditSums(lines: seq<DocumentLine>): (int, int, int, int) {
    (SumOf(DocGross(), lines), SumOf(DocDiscount(), lines), SumOf(DocTaxable(), lines), SumOf(DocTax(), lines))
  }

  function CreditHeader(lines: seq<DocumentLine>, intraState: bool): Header {
    var (subtotal, discount, taxable, tax) := CreditSums(lines);
    MakeHeader(subtotal, discount, taxable, tax, intraState)
  }

  lemma CreditSumsSnoc(lines: seq<DocumentLine>, x: DocumentLine)
    ensures
      var (subtotal, discount, taxable, tax) := CreditSums(lines);
      CreditSums(lines + [x]) == (subtotal + Gross(x.unitPrice, x.quantity), discount + x.discount, taxable + x.taxable, tax + TaxOf(x))
  {
    assert (lines + [x])[..|lines|] == lines;
  }

  /** A note's header is the sum of its lines, in whole rupees: subtotal, discount, taxable value and tax, and one rounding. */
  lemma CreditNoteReconciles(lines: seq<DocumentLine>, intraState: bool)
    requires SumOf(DocTax(), lines) >= 0 && SumOf(DocTaxable(), lines) >= 0
    ensures
      var h := CreditHeader(lines, intraState);
      && h.subtotal == SumOf((l: DocumentLine) => Gross(l.unitPrice, l.quantity), lines)
      && h.taxable == SumOf((l: DocumentLine) => l.taxable, lines) && h.discount == SumOf((l: DocumentLine) => l.discount, lines)
      && h.gst.cgst + h.gst.sgst + h.gst.igst == SumOf((l: DocumentLine) => l.gst.cgst + l.gst.sgst + l.gst.igst, lines)
      && SplitFor(h.gst, intraState)
      && h.taxable + h.gst.cgst + h.gst.sgst + h.gst.igst + h.roundOff == h.total
      && h.total % 100 == 0 && -50 < h.roundOff <= 50
  {
    SumOfAgree(DocGross(), (l: DocumentLine) => Gross(l.unitPrice, l.quantity), lines);
    SumOfAgree(DocTaxable(), (l: DocumentLine) => l.taxable, lines);
    SumOfAgree(DocDiscount(), (l: DocumentLine) => l.discount, lines);
    SumOfAgree(DocTax(), (l: DocumentLine) => l.gst.cgst + l.gst.sgst + l.gst.igst, lines);
    PayableIsNearestRupee(SumOf(DocTaxable(), lines) + SumOf(DocTax(), lines));
    HalvesReconcile(SumOf(DocTax(), lines));
  }

  /** One request more: priced after the others, or refusing them all. */
  lemma CreditLinesStep(invoice: int, requests: seq<Request>, intraState: bool, i: nat)
    requires Positive(requests) && i < |requests| && CreditLines(invoice, requests[..i], intraState).Done?
    ensures
      var (before, one) := (CreditLines(invoice, requests[..i], intraState), CreditOne(invoice, requests[i], intraState));
      CreditLines(invoice, requests[..i + 1], intraState) == if one.Done? then Done(before.value + [one.value]) else Refused(one.code)
  {
    assert requests[..i + 1][..i] == requests[..i];
  }

  /** The figures of a credit note, or the first line's refusal. */
  method PrepareCredit(invoice: int, requests: seq<Request>, intraState: bool) returns (r: Outcome<(Header, seq<DocumentLine>)>)
    requires Positive(requests)
    ensures var lines := CreditLines(invoice, requests, intraState);
            r == if lines.Done? then Done((CreditHeader(lines.value, intraState), lines.value)) else Refused(lines.code)
  {
    var subtotal, discount, taxable, tax := 0, 0, 0, 0;
    var lines: seq<DocumentLine> := [];
    var i := 0;
    while i < |requests|
      invariant 0 <= i <= |requests|
      invariant CreditLines(invoice, requests[..i], intraState) == Done(lines)
      invariant (subtotal, discount, taxable, tax) == CreditSums(lines)
    {
      CreditLinesStep(invoice, requests, intraState, i);
      var line := CreditOne(invoice, requests[i], intraState);
      if line.Refused? {
        CreditRefusalIsFinal(invoice, requests, intraState, i + 1);
        return Refused(line.code);
      }
      CreditSumsSnoc(lines, line.value);
      subtotal := subtotal + Gross(line.value.unitPrice, line.value.quantity);
      discount := discount + line.value.discount;
      taxable := taxable + line.value.taxable;
      tax := tax + TaxOf(line.value);
      lines := lines + [line.value];
      i := i + 1;
    }
    assert requests[..i] == requests;
    r := Done((MakeHeader(subtotal, discount, taxable, tax, intraState), lines));
  }

  lemma {:induction false} CreditRefusalIsFinal(invoice: int, requests: seq<Request>, intraState: bool, i: nat)
    requires Positive(requests) && i <= |requests| && CreditLines(invoice, requests[..i], intraState).Refused?
    ensures CreditLines(invoice, requests, intraState) == CreditLines(invoice, requests[..i], intraState)
    decreases |requests| - i
  {
    if i < |requests| {
      assert requests[..i + 1][..i] == requests[..i];
      CreditRefusalIsFinal(invoice, requests, intraState, i + 1);
    } else {
      assert requests[..i] == requests;
    }
  }

  /** Every line of the invoice, at its full quantity, stated or left to the default. */
  predicate CreditsEverything(invoice: int, requests: seq<Request>, lines: seq<OrderLine>, intraState: bool) {
    && |requests| == |lines|
    && forall i :: 0 <= i < |lines| ==>
         && requests[i].invoice == invoice && requests[i].line == InvoiceLine(lines[i], intraState)
         && (requests[i].quantity.None? || requests[i].quantity.value == lines[i].quantity)
  }

  /** A line credited at its full quantity is that line again, however the state was judged the second time. */
  lemma WholeLine(l: OrderLine, intraState: bool, again: bool)
    requires Priced(l) && (l.tax == 0 || again == intraState)
    ensures CreditLine(InvoiceLine(l, intraState), l.quantity, again) == InvoiceLine(l, intraState)
  {
    HalfUpExact(l.taxable, l.quantity);
    HalfUpExact(l.tax, l.quantity);
    HalfUpExact(l.discount, l.quantity);
    if l.tax == 0 { HalfUpExact(0, 2); }
  }

  lemma {:induction false} WholeLines(invoice: int, requests: seq<Request>, lines: seq<OrderLine>, intraState: bool, again: bool)
    requires AllPriced(lines) && Positive(requests) && CreditsEverything(invoice, requests, lines, intraState)
    requires forall i :: 0 <= i < |lines| ==> lines[i].tax == 0 || again == intraState
    ensures CreditLines(invoice, requests, again) == Done(InvoiceLines(lines, intraState))
  {
    if |lines| != 0 {
      WholeLines(invoice, requests[..|lines| - 1], lines[..|lines| - 1], intraState, again);
      WholeLine(lines[|lines| - 1], intraState, again);
    }
  }

  lemma {:induction false} DocumentSums(lines: seq<OrderLine>, intraState: bool)
    ensures var document := InvoiceLines(lines, intraState);
            && SumOf(DocGross(), document) == SumOf(LineGross(), lines)
            && SumOf(DocDiscount(), document) == SumOf(LineDiscount(), lines)
            && SumOf(DocTaxable(), document) == SumOf(LineTaxable(), lines)
            && SumOf(DocTax(), document) == SumOf(LineTax(), lines)
  {
    if |lines| != 0 {
      DocumentSums(lines[..|lines| - 1], intraState);
      var front, last := InvoiceLines(lines[..|lines| - 1], intraState), InvoiceLine(lines[|lines| - 1], intraState);
      SumOfSnoc(DocGross(), front, last);
      SumOfSnoc(DocDiscount(), front, last);
      SumOfSnoc(DocTaxable(), front, last);
      SumOfSnoc(DocTax(), front, last);
    }
  }

  lemma {:induction false} NoTaxAnywhere(lines: seq<OrderLine>)
    requires AllPriced(lines) && SumOf(LineTax(), lines) == 0
    ensures forall i :: 0 <= i < |lines| ==> lines[i].tax == 0
  {
    if |lines| != 0 {
      LineSums(lines[..|lines| - 1]);
      NoTaxAnywhere(lines[..|lines| - 1]);
    }
  }

  /**
   A note for every line at full quantity reproduces every figure of the invoice it corrects. The
   note does not read the invoice's state: it takes a zero IGST for intra-state, and that is harmless.
   */
  lemma FullCreditReversesTheInvoice(invoice: int, requests: seq<Request>, lines: seq<OrderLine>, intraState: bool)
    requires AllPriced(lines) && Positive(requests) && CreditsEverything(invoice, requests, lines, intraState)
    ensures
      var h := InvoiceHeader(lines, intraState);
      var credited := CreditLines(invoice, requests, h.gst.igst == 0);
      && credited == Done(InvoiceLines(lines, intraState))
      && CreditHeader(credited.value, h.gst.igst == 0) == h
  {
    var again := InvoiceHeader(lines, intraState).gst.igst == 0;
    if again != intraState { NoTaxAnywhere(lines); }
    WholeLines(invoice, requests, lines, intraState, again);
    DocumentSums(lines, intraState);
    HalfUpExact(0, 2);
  }

  /**
   A partial note's own subtotal and discount no longer meet its taxable value exactly, because each
   share is rounded on its own; they miss it by at most two paise a line.
   */
  lemma PartialLineDrift(source: DocumentLine, quantity: int, intraState: bool)
    requires 0 < quantity <= source.quantity
    requires source.unitPrice >= 0 && source.discount >= 0 && source.taxable >= 0
    requires source.taxable + source.discount == Gross(source.unitPrice, source.quantity)
    ensures var c := CreditLine(source, quantity, intraState);
            -2 <= Gross(c.unitPrice, c.quantity) - c.discount - c.taxable <= 2
  {
    var c := CreditLine(source, quantity, intraState);
    var (p, q, all) := (source.unitPrice, quantity, source.quantity);
    var part, whole := Gross(p, q), Gross(p, all);
    assert p * q >= 0 && p * all >= 0 && source.discount * q >= 0 && source.taxable * q >= 0;
    HalfUpBounds(p * q, 1000);
    HalfUpBounds(p * all, 1000);
    HalfUpBounds(source.discount * q, all);
    HalfUpBounds(source.taxable * q, all);
    TwiceProduct(c.discount, all);
    TwiceProduct(c.taxable, all);
    ShareDrift(p, q, all, part, source.discount, source.taxable, c.discount, c.taxable);
  }

  lemma ShareDrift(p: int, q: int, all: int, part: int, d: int, t: int, dq: int, tq: int)
    requires 0 < q <= all
    requires 2 * (p * q) - 1000 <= 2000 * part <= 2 * (p * q) + 1000
    requires 2 * (p * all) - 1000 <= 2000 * (d + t) <= 2 * (p * all) + 1000
    requires 2 * (d * q) - all <= 2 * (dq * all) <= 2 * (d * q) + all
    requires 2 * (t * q) - all <= 2 * (tq * all) <= 2 * (t * q) + all
    ensures -2 <= part - dq - tq <= 2
  {
    Scaled(p * q, part, all);
    Scaled(p * all, d + t, q);
    Shuffle(p, q, all);
    Distribute(d, t, 0, q);
    Distribute(part, -dq, -tq, all);
    SumOfErrors((p * q) * all, all, q, part * all, (d + t) * q, d * q, t * q, dq * all, tq * all);
    WithinTwo(all, part - dq - tq);
  }

  /** A figure rounded from thousandths, multiplied through. */
  lemma Scaled(n: int, r: int, k: int)
    requires 2 * n - 1000 <= 2000 * r <= 2 * n + 1000 && k > 0
    ensures 2 * (n * k) - 1000 * k <= 2000 * (r * k) <= 2 * (n * k) + 1000 * k
  {
    ProductWithin(2000 * r - 2 * n + 1000, k, k);
    ProductWithin(2 * n + 1000 - 2000 * r, k, k);
    Expand(2000, r, -2, n, 1000, k);
    Expand(2, n, -2000, r, 1000, k);
  }

  lemma TwiceProduct(x: int, k: int)
    ensures 2 * k * x == 2 * (x * k)
  {
  }

  lemma Distribute(a: int, b: int, c: int, k: int)
    ensures (a + b + c) * k == a * k + b * k + c * k && (-b) * k == -(b * k) && (-c) * k == -(c * k)
  {
  }

  lemma Shuffle(p: int, q: int, all: int)
    ensures (p * q) * all == (p * all) * q
  {
  }

  lemma Expand(a: int, x: int, b: int, y: int, c: int, k: int)
    ensures (a * x + b * y + c) * k == a * (x * k) + b * (y * k) + c * k
  {
  }

  lemma SumOfErrors(n: int, all: int, q: int, part: int, whole: int, d: int, t: int, dq: int, tq: int)
    requires 0 < q <= all && d + t == whole
    requires 2 * n - 1000 * all <= 2000 * part <= 2 * n + 1000 * all
    requires 2 * n - 1000 * q <= 2000 * whole <= 2 * n + 1000 * q
    requires 2 * d - all <= 2 * dq <= 2 * d + all
    requires 2 * t - all <= 2 * tq <= 2 * t + all
    ensures -4000 * all <= 2000 * (part - dq - tq) <= 4000 * all
  {
  }

  lemma WithinTwo(k: int, x: int)
    requires k > 0 && -4000 * k <= 2000 * (x * k) <= 4000 * k
    ensures -2 <= x <= 2
  {
    Expand(1, x, 0, 0, -2, k);
    Expand(1, x, 0, 0, 2, k);
  }
}
