/** The purchasing services as they run: a list and a set built in a loop, rows inserted, fields set in place. */
module PurchasingDesk {
  import opened Outcomes
  import opened Sums
  import opened Querysets
  import opened Money
  import opened Vocabulary
  import opened Purchasing
  import PurchasingLaws

  class Desk {
    var orders: seq<PurchaseOrder>
    var receipts: seq<Receipt>
    var stock: seq<Movement>
    var payments: seq<Payment>
    var ledger: seq<SupplierRow>

    function Contents(): Tables
      reads this
    {
      Tables(orders, receipts, stock, payments, ledger)
    }

    constructor ()
      ensures Contents() == Empty
    {
      orders, receipts, stock, payments, ledger := [], [], [], [], [];
    }

    /** Rebuild every line of an order, then its header. A refusal leaves the caller to roll back. */
    method ReplaceLines(o: nat, raw: seq<DraftLine>) returns (ok: bool)
      requires o < |orders|
      modifies this`orders
      ensures ok == LinesAcceptable(raw)
      ensures ok ==> orders == old(orders)[o := old(orders)[o].(lines := NewLines(raw), totals := OrderTotals(NewLines(raw)))]
    {
      if |raw| == 0 {
        return false;
      }
      orders := orders[o := orders[o].(lines := [])];
      var i := 0;
      while i < |raw|
        invariant 0 <= i <= |raw|
        invariant forall k :: 0 <= k < i ==> Acceptable(raw[k])
        invariant orders == old(orders)[o := old(orders)[o].(lines := NewLines(raw[..i]))]
      {
        assert raw[..i + 1][..i] == raw[..i];
        if !raw[i].active || raw[i].ordered <= 0 || raw[i].unitCost < 0 {
          return false;
        }
        orders := orders[o := orders[o].(lines := orders[o].lines + [NewLine(raw[i])])];
        i := i + 1;
      }
      assert raw[..i] == raw;
      RecalculateTotals(o);
      ok := true;
    }

    /** The header is the sum of the already-rounded lines. */
    method RecalculateTotals(o: nat)
      requires o < |orders|
      modifies this`orders
      ensures orders == old(orders)[o := old(orders)[o].(totals := OrderTotals(old(orders)[o].lines))]
    {
      var lines := orders[o].lines;
      var subtotal, tax, total := 0, 0, 0;
      var i := 0;
      while i < |lines|
        invariant 0 <= i <= |lines|
        invariant Totals(subtotal, tax, total) == OrderTotals(lines[..i])
      {
        assert lines[..i + 1][..i] == lines[..i];
        subtotal, tax, total := subtotal + lines[i].taxable, tax + lines[i].tax, total + lines[i].total;
        i := i + 1;
      }
      assert lines[..i] == lines;
      orders := orders[o := orders[o].(totals := Totals(subtotal, tax, total))];
    }

    method Create(supplier: int, active: bool, orderDate: Option<int>, expected: Option<int>, raw: seq<DraftLine>) returns (r: Outcome<()>)
      modifies this`orders
      ensures var s := CreateOrder(old(Contents()), supplier, active, orderDate, expected, raw);
              if s.Done? then r == Done(()) && Contents() == s.value else r == Refused(s.code) && Contents() == old(Contents())
    {
      if orderDate.None? || !active || BeforeOrder(expected, orderDate.value) {
        return Refused(VALIDATION_FAILED);
      }
      var before := orders;
      orders := orders + [PurchaseOrder(supplier, DRAFT, orderDate.value, expected, [], Totals(0, 0, 0))];
      var ok := ReplaceLines(|before|, raw);
      if !ok {
        orders := before;
      }
      r := if ok then Done(()) else Refused(VALIDATION_FAILED);
    }

    method Amend(o: nat, rescheduled: Option<Option<int>>, raw: seq<DraftLine>) returns (r: Outcome<()>)
      requires o < |orders|
      modifies this`orders
      ensures var s := AmendOrder(old(Contents()), o, rescheduled, raw);
              if s.Done? then r == Done(()) && Contents() == s.value else r == Refused(s.code) && Contents() == old(Contents())
    {
      var before := orders;
      if orders[o].status != DRAFT {
        return Refused(VALIDATION_FAILED);
      }
      if rescheduled.Some? {
        if BeforeOrder(rescheduled.value, orders[o].orderDate) {
          return Refused(VALIDATION_FAILED);
        }
        orders := orders[o := orders[o].(expected := rescheduled.value)];
      }
      var ok := ReplaceLines(o, raw);
      if !ok {
        orders := before;
      }
      r := if ok then Done(()) else Refused(VALIDATION_FAILED);
    }

    /** The single place an order's status changes. */
    method MoveTo(o: nat, to: Status) returns (r: Outcome<()>)
      requires o < |orders|
      modifies this`orders
      ensures var s := Transition(old(Contents()), o, to);
              if s.Done? then r == Done(()) && Contents() == s.value else r == Refused(s.code) && Contents() == old(Contents())
    {
      if to !in Allowed(orders[o].status) {
        return Refused(VALIDATION_FAILED);
      }
      orders := orders[o := orders[o].(status := to)];
      r := Done(());
    }

    /** `received_quantities` for one line, as the grouped sum finds it. */
    method SumReceived(o: nat, l: nat) returns (sum: int)
      ensures sum == ReceivedQuantity(receipts, o, l)
    {
      sum := 0;
      var r := 0;
      while r < |receipts|
        invariant 0 <= r <= |receipts|
        invariant sum == ReceivedQuantity(receipts[..r], o, l)
      {
        assert receipts[..r + 1][..r] == receipts[..r];
        if receipts[r].order == o {
          sum := sum + SumOf(OnLine(l), receipts[r].lines);
        }
        r := r + 1;
      }
      assert receipts[..r] == receipts;
    }

    /** Validate every submitted line and price it. Writes nothing. */
    method PriceLines(o: nat, raw: seq<RawLine>, tolerance: int) returns (r: Outcome<seq<ReceiptLine>>)
      requires o < |orders|
      ensures r == PriceReceiptLines(Contents(), o, raw, tolerance)
    {
      var priced: seq<ReceiptLine> := [];
      var seen: set<nat> := {};
      var i := 0;
      while i < |raw|
        invariant 0 <= i <= |raw|
        invariant PriceReceiptLines(Contents(), o, raw[..i], tolerance) == Done(priced)
        invariant seen == Seen(raw[..i])
      {
        assert raw[..i + 1][..i] == raw[..i];
        PurchasingLaws.SeenSnoc(raw[..i + 1]);
        var line := raw[i];
        var accepted := line.order == o && line.line < |orders[o].lines| && line.line !in seen && line.quantity > 0;
        if accepted {
          var prior := SumReceived(o, line.line);
          accepted := prior + line.quantity <= AcceptanceLimit(orders[o].lines[line.line].ordered, tolerance);
        }
        if !accepted {
          RefusalIsFinal(Contents(), o, raw, tolerance, i + 1);
          return Refused(VALIDATION_FAILED);
        }
        seen := seen + {line.line};
        priced := priced + [PriceLine(orders[o], line)];
        i := i + 1;
      }
      assert raw[..i] == raw;
      r := Done(priced);
    }

    /** One movement per line, in line order. */
    method PostLines(lines: seq<ReceiptLine>, receipt: nat)
      modifies this`stock
      ensures stock == old(stock) + MovementsOf(lines, receipt)
    {
      var i := 0;
      while i < |lines|
        invariant 0 <= i <= |lines|
        invariant stock == old(stock) + MovementsOf(lines[..i], receipt)
      {
        assert lines[..i + 1][..i] == lines[..i];
        stock := stock + [Movement(lines[i].product, Abs(lines[i].quantity), receipt)];
        i := i + 1;
      }
      assert lines[..i] == lines;
    }

    /** The supplier ledger's single append path. */
    method Record(supplier: int, kind: Code, amount: int, narration: string, date: int, sourceType: Code, sourceId: Option<int>) returns (ok: bool)
      modifies this`ledger
      ensures var s := RecordSupplierEntry(old(ledger), supplier, kind, amount, narration, date, sourceType, sourceId);
              ok == s.Done? && ledger == (if s.Done? then s.value else old(ledger)) && (s.Refused? ==> s.code == VALIDATION_FAILED)
    {
      if !SupplierCode(kind) || amount == 0 || (kind == GOODS_RECEIPT && amount < 0) || ((kind == PAYMENT || kind == DEBIT_NOTE) && amount > 0) {
        return false;
      }
      ledger := ledger + [SupplierRow(supplier, LedgerWalk.Entry(|ledger| + 1, date, kind, amount, narration, sourceType, sourceId))];
      ok := true;
    }

    /** Header, lines, movements and payable: all of them or none. */
    method Post(o: nat, date: int, lines: seq<ReceiptLine>) returns (r: Outcome<()>)
      requires o < |orders|
      modifies this
      ensures var s := PostReceipt(old(Contents()), o, date, lines);
              if s.Done? then r == Done(()) && Contents() == s.value else r == Refused(s.code) && Contents() == old(Contents())
    {
      var before := stock;
      var totals := ReceiptTotals(lines);
      PostLines(lines, |receipts|);
      if totals.total != 0 {
        var ok := Record(orders[o].supplier, GOODS_RECEIPT, totals.total, "Goods receipt", date, GOODS_RECEIPT, Some(|receipts| + 1));
        if !ok {
          stock := before;
          return Refused(VALIDATION_FAILED);
        }
      }
      receipts := receipts + [Receipt(o, orders[o].supplier, date, lines, totals)];
      r := Done(());
    }

    /** Book goods in against an order. */
    method ReceiveGoods(o: nat, date: Option<int>, raw: seq<RawLine>, tolerance: int) returns (r: Outcome<()>)
      requires o < |orders|
      modifies this
      ensures var s := CreateGoodsReceipt(old(Contents()), o, date, raw, tolerance);
              if s.Done? then r == Done(()) && Contents() == s.value else r == Refused(s.code) && Contents() == old(Contents())
    {
      var po := orders[o];
      if date.None? || !Receivable(po.status) || date.value < po.orderDate || |raw| == 0 {
        return Refused(VALIDATION_FAILED);
      }
      var priced := PriceLines(o, raw, tolerance);
      if priced.Refused? {
        return Refused(priced.code);
      }
      r := Post(o, date.value, priced.value);
      if r.Done? {
        var complete := AllMet(po, receipts, o);
        r := MoveTo(o, if complete then RECEIVED else PARTIALLY_RECEIVED);
      }
    }

    method Pay(submission: Option<int>, dated: bool, payload: Payload) returns (r: Outcome<()>)
      modifies this
      ensures var s := RecordSupplierPayment(old(Contents()), submission, dated, payload);
              if s.Done? then r == Done(()) && Contents() == s.value else r == Refused(s.code) && Contents() == old(Contents())
    {
      if submission.None? || !dated || payload.means.UnknownMethod? || payload.amount <= 0 {
        return Refused(VALIDATION_FAILED);
      }
      var existing := IndexWhere(SubmittedAs(submission.value), payments);
      if existing >= 0 {
        return if payments[existing].payload == payload then Done(()) else Refused(VALIDATION_FAILED);
      }
      var ok := Record(payload.supplier, PAYMENT, -payload.amount, "Payment", payload.date, PAYMENT, Some(|payments| + 1));
      if !ok {
        return Refused(VALIDATION_FAILED);
      }
      payments := payments + [Payment(submission.value, payload, false, |ledger| - 1, None)];
      r := Done(());
    }

    method Reverse(p: nat, reason: string, date: Option<int>) returns (r: Outcome<()>)
      requires p < |payments|
      modifies this
      ensures var s := ReverseSupplierPayment(old(Contents()), p, reason, date);
              if s.Done? then r == Done(()) && Contents() == s.value else r == Refused(s.code) && Contents() == old(Contents())
    {
      if reason == "" || date.None? {
        return Refused(VALIDATION_FAILED);
      }
      var payment := payments[p];
      if payment.reversed {
        return Done(());
      }
      var ok := Record(payment.payload.supplier, ADJUSTMENT, payment.payload.amount, "Reversal of payment", date.value, PAYMENT, Some(p + 1));
      if !ok {
        return Refused(VALIDATION_FAILED);
      }
      payments := payments[p := payment.(reversed := true, reversalEntry := Some(|ledger| - 1))];
      r := Done(());
    }

    /** A second opening is refused, not replayed: its amount may differ from the first one's. */
    method LoadOpening(supplier: int, amount: int, date: Option<int>) returns (r: Outcome<()>)
      modifies this`ledger
      ensures var s := LoadSupplierOpening(old(Contents()), supplier, amount, date);
              if s.Done? then r == Done(()) && Contents() == s.value else r == Refused(s.code) && Contents() == old(Contents())
    {
      if date.None? || amount == 0 || HasOpening(ledger, supplier) {
        return Refused(VALIDATION_FAILED);
      }
      var ok := Record(supplier, OPENING, amount, "Opening balance carried at go-live", date.value, BLANK, None);
      r := if ok then Done(()) else Refused(VALIDATION_FAILED);
    }
  }

  lemma {:induction false} RefusalIsFinal(t: Tables, o: nat, raw: seq<RawLine>, tolerance: int, i: nat)
    requires o < |t.orders| && i <= |raw| && PriceReceiptLines(t, o, raw[..i], tolerance).Refused?
    ensures PriceReceiptLines(t, o, raw, tolerance) == Refused(PriceReceiptLines(t, o, raw[..i], tolerance).code)
    decreases |raw| - i
  {
    if i < |raw| {
      assert raw[..i + 1][..i] == raw[..i];
      RefusalIsFinal(t, o, raw, tolerance, i + 1);
    } else {
      assert raw[..i] == raw;
    }
  }
}
