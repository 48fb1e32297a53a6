/** What every billing and receivables service keeps, and what follows over whole runs. */
module BooksLaws {
  import opened Outcomes
  import opened Sums
  import opened Querysets
  import opened Pricing
  import opened Documents
  import opened Numbering
  import opened Vocabulary
  import opened LedgerWalk
  import opened Receivables
  import opened Books

  // ------------------------------------------------------------------ one appended row

  /** `b'` keeps every document's posting and every ledger row of `b`. */
  ghost predicate Extends(b: Ledgers, b': Ledgers) {
    && |b.invoices| <= |b'.invoices| && |b.payments| <= |b'.payments|
    && |b.notes| <= |b'.notes| && b.notes == b'.notes[..|b.notes|]
    && |b.ledger| <= |b'.ledger| && (forall k :: 0 <= k < |b.ledger| ==> b'.ledger[k] == b.ledger[k])
    && (forall i :: 0 <= i < |b.invoices| ==> SamePosting(b.invoices[i], b'.invoices[i]))
    && (forall p :: 0 <= p < |b.payments| ==> SamePayment(b.payments[p], b'.payments[p]))
  }

  predicate SamePosting(i: Invoice, j: Invoice) {
    && j.entry == i.entry && j.customer == i.customer && j.header == i.header && j.order == i.order
    && j.on == i.on && j.year == i.year && j.value == i.value && j.number == i.number
    && (i.cancelEntry.Some? ==> j.cancelEntry == i.cancelEntry)
  }

  predicate SamePayment(p: Payment, q: Payment) {
    && q.entry == p.entry && q.customer == p.customer && q.amount == p.amount && q.date == p.date
    && (p.reversalEntry.Some? ==> q.reversalEntry == p.reversalEntry)
  }

  lemma OldRowsStayExplained(b: Ledgers, b': Ledgers, k: nat)
    requires Extends(b, b') && k < |b.ledger| && Explained(b, k)
    ensures Explained(b', k)
  {
    assert b'.ledger[k] == b.ledger[k];
    var e := b.ledger[k].entry;
    if e.sourceId.Some? && 0 <= e.sourceId.value - 1 {
      var id := e.sourceId.value - 1;
      if id < |b.invoices| { assert SamePosting(b.invoices[id], b'.invoices[id]); }
      if id < |b.payments| { assert SamePayment(b.payments[id], b'.payments[id]); }
      if id < |b.notes| { assert b'.notes[id] == b.notes[id]; }
    }
  }

  /** With one more row, itself explained, every row is. */
  lemma RowsStayExplained(b: Ledgers, b': Ledgers)
    requires Posted(b) && Extends(b, b') && |b'.ledger| == |b.ledger| + 1 && Explained(b', |b.ledger|)
    ensures forall k :: 0 <= k < |b'.ledger| ==> Explained(b', k)
  {
    forall k | 0 <= k < |b'.ledger| ensures Explained(b', k) {
      if k < |b.ledger| { OldRowsStayExplained(b, b', k); }
    }
  }

  /** A document nothing was credited against has nothing credited. */
  lemma {:induction false} NothingCredited(notes: seq<Note>, i: nat)
    requires forall n :: 0 <= n < |notes| ==> notes[n].invoice != i
    ensures CreditedTotal(notes, i) == 0
  {
    if |notes| != 0 { NothingCredited(notes[..|notes| - 1], i); }
  }

  lemma {:induction false} NoNoteRows(notes: seq<Note>, ledger: seq<Row>, i: nat)
    requires forall n :: 0 <= n < |notes| ==> notes[n].invoice != i
    ensures SumOf(NoteRowValue(notes, i), ledger) == 0
  {
    if |ledger| != 0 { NoNoteRows(notes, ledger[..|ledger| - 1], i); }
  }

  /** A row that is not a credit note's leaves every credited figure alone. */
  lemma OtherRowsCreditNothing(b: Ledgers, b': Ledgers, row: Row)
    requires Posted(b) && Capped(b) && b'.notes == b.notes && b'.ledger == b.ledger + [row] && row.entry.kind != CREDIT_NOTE
    requires |b.invoices| <= |b'.invoices| && forall i :: 0 <= i < |b.invoices| ==> b'.invoices[i].header == b.invoices[i].header
    requires forall i :: |b.invoices| <= i < |b'.invoices| ==> b'.invoices[i].header.total >= 0
    ensures Capped(b')
  {
    forall i | 0 <= i < |b'.invoices|
      ensures CreditedTotal(b'.notes, i) <= b'.invoices[i].header.total
      ensures SumOf(NoteRowValue(b'.notes, i), b'.ledger) == CreditedTotal(b'.notes, i)
    {
      SumOfSnoc(NoteRowValue(b.notes, i), b.ledger, row);
      if i >= |b.invoices| {
        forall n | 0 <= n < |b.notes| ensures b.notes[n].invoice != i { assert NotePosted(b, n); }
        NothingCredited(b.notes, i);
        NoNoteRows(b.notes, b.ledger, i);
      }
    }
  }

  lemma {:induction false} SameInvoiceValues(xs: seq<Invoice>, ys: seq<Invoice>, year: int)
    requires |xs| == |ys| && forall i :: 0 <= i < |xs| ==> xs[i].year == ys[i].year && xs[i].value == ys[i].value
    ensures InvoiceValues(xs, year) == InvoiceValues(ys, year)
  {
    if |xs| != 0 { SameInvoiceValues(xs[..|xs| - 1], ys[..|ys| - 1], year); }
  }

  lemma SameNumbers(b: Ledgers, b': Ledgers)
    requires Gapless(b) && b'.series == b.series && b'.notes == b.notes && |b'.invoices| == |b.invoices|
    requires forall i :: 0 <= i < |b.invoices| ==> b'.invoices[i].year == b.invoices[i].year && b'.invoices[i].value == b.invoices[i].value
    ensures Gapless(b')
  {
    forall year ensures InvoiceValues(b'.invoices, year) == InvoiceValues(b.invoices, year) {
      SameInvoiceValues(b.invoices, b'.invoices, year);
    }
  }

  // ------------------------------------------------------------------ each service

  /** `b'` adds one invoice, posted by its one new row. */
  ghost predicate AddsInvoice(b: Ledgers, b': Ledgers) {
    && b'.notes == b.notes && b'.payments == b.payments
    && |b'.ledger| == |b.ledger| + 1 && b'.ledger == b.ledger + [b'.ledger[|b.ledger|]]
    && |b'.invoices| == |b.invoices| + 1 && b'.invoices == b.invoices + [b'.invoices[|b.invoices|]]
    && b'.invoices[|b.invoices|].entry == |b.ledger| && b'.invoices[|b.invoices|].status == ISSUED && b'.invoices[|b.invoices|].cancelEntry == None
    && NamesSource(b'.ledger[|b.ledger|].entry, INVOICE, INVOICE, |b.invoices|) && Explained(b', |b.ledger|)
  }

  lemma InsertAddsInvoice(b: Ledgers, sale: Sale, intraState: bool, header: Header, lines: seq<DocumentLine>, a: Allocation, on: Day, uuid: Option<Uuid>)
    ensures var r := InsertInvoice(b, sale, intraState, header, lines, a, on, uuid);
            r.Done? ==>
              && AddsInvoice(b, r.value) && r.value.series == a.table
              && IndexWhere(InvoiceNumbered(a.number), b.invoices) < 0
              && var invoice := r.value.invoices[|b.invoices|];
                 && invoice.year == a.year && invoice.value == a.value && invoice.number == a.number
                 && invoice.header == header && invoice.lines == lines && invoice.order == sale.order && invoice.customer == sale.customer
                 && invoice.intraState == intraState && invoice.uuid == uuid && invoice.on == on
  {
  }

  lemma IssueAddsInvoice(b: Ledgers, sale: Sale, intraState: bool, on: Day, uuid: Option<Uuid>)
    ensures var r := IssueInvoice(b, sale, intraState, on, uuid);
            r.Done? && r.value != b ==>
              && AddsInvoice(b, r.value)
              && AllocateNumber(b.series, INVOICE_SERIES, on).Done?
              && var (a, invoice) := (AllocateNumber(b.series, INVOICE_SERIES, on).value, r.value.invoices[|b.invoices|]);
                 && r.value.series == a.table && invoice.year == a.year && invoice.value == a.value && invoice.number == a.number
                 && invoice.header == InvoiceHeader(sale.lines, intraState) && invoice.lines == InvoiceLines(sale.lines, intraState)
                 && invoice.order == sale.order && invoice.customer == sale.customer
                 && invoice.intraState == intraState && sale.goodsOut && |sale.lines| > 0 && invoice.uuid == uuid && invoice.on == on
                 && IndexWhere(InvoiceOf(sale.order), b.invoices) < 0 && IndexWhere(InvoiceNumbered(a.number), b.invoices) < 0
  {
    var allocation := AllocateNumber(b.series, INVOICE_SERIES, on);
    if allocation.Done? {
      InsertAddsInvoice(b, sale, intraState, InvoiceHeader(sale.lines, intraState), InvoiceLines(sale.lines, intraState), allocation.value, on, uuid);
    }
  }

  lemma IssueSound(b: Ledgers, sale: Sale, intraState: bool, on: Day, uuid: Option<Uuid>)
    requires Sound(b) && forall i :: 0 <= i < |sale.lines| ==> Priced(sale.lines[i])
    ensures var r := IssueInvoice(b, sale, intraState, on, uuid); r.Done? ==> Sound(r.value)
  {
    var r := IssueInvoice(b, sale, intraState, on, uuid);
    IssueAddsInvoice(b, sale, intraState, on, uuid);
    if r.Done? && r.value != b {
      var b' := r.value;
      assert forall i :: 0 <= i < |b.invoices| ==> b'.invoices[i] == b.invoices[i];
      RowsStayExplained(b, b');
      IssuePosts(b, b');
      OtherRowsCreditNothing(b, b', b'.ledger[|b.ledger|]);
      IssueUnique(b, b');
      IssueGapless(b, b', on);
    }
  }

  lemma IssuePosts(b: Ledgers, b': Ledgers)
    requires Posted(b) && AddsInvoice(b, b')
    ensures forall i :: 0 <= i < |b'.invoices| ==> InvoicePosted(b', i)
    ensures forall n :: 0 <= n < |b'.notes| ==> NotePosted(b', n)
    ensures forall p :: 0 <= p < |b'.payments| ==> PaymentPosted(b', p)
  {
    forall i | 0 <= i < |b'.invoices| ensures InvoicePosted(b', i) {
      if i < |b.invoices| { assert InvoicePosted(b, i) && b'.invoices[i] == b.invoices[i]; }
    }
    forall n | 0 <= n < |b'.notes| ensures NotePosted(b', n) {
      assert NotePosted(b, n) && b'.invoices[b.notes[n].invoice] == b.invoices[b.notes[n].invoice];
    }
    forall p | 0 <= p < |b'.payments| ensures PaymentPosted(b', p) { assert PaymentPosted(b, p); }
  }

  lemma IssueUnique(b: Ledgers, b': Ledgers)
    requires Unique(b) && AddsInvoice(b, b')
    requires var invoice := b'.invoices[|b.invoices|];
             IndexWhere(InvoiceOf(invoice.order), b.invoices) < 0 && IndexWhere(InvoiceNumbered(invoice.number), b.invoices) < 0
    ensures Unique(b')
  {
    var invoice := b'.invoices[|b.invoices|];
    forall i | 0 <= i < |b.invoices| ensures b'.invoices[i].order != invoice.order && b'.invoices[i].number != invoice.number {
      assert !InvoiceOf(invoice.order)(b.invoices[i]) && !InvoiceNumbered(invoice.number)(b.invoices[i]);
    }
  }

  lemma IssueGapless(b: Ledgers, b': Ledgers, on: Day)
    requires Gapless(b) && b'.notes == b.notes && AllocateNumber(b.series, INVOICE_SERIES, on).Done?
    requires var a := AllocateNumber(b.series, INVOICE_SERIES, on).value;
             && b'.series == a.table && |b'.invoices| == |b.invoices| + 1 && b'.invoices == b.invoices + [b'.invoices[|b.invoices|]]
             && b'.invoices[|b.invoices|].year == a.year && b'.invoices[|b.invoices|].value == a.value
    ensures Gapless(b')
  {
    forall year
      ensures CountsUpTo(InvoiceValues(b'.invoices, year), Current(b'.series, INVOICE_SERIES, year))
      ensures CountsUpTo(NoteValues(b'.notes, year), Current(b'.series, CREDIT_NOTE_SERIES, year))
    {
      AllocationAdvancesOneSeries(b.series, INVOICE_SERIES, on, INVOICE_SERIES, year);
      AllocationAdvancesOneSeries(b.series, INVOICE_SERIES, on, CREDIT_NOTE_SERIES, year);
      assert CountsUpTo(InvoiceValues(b.invoices, year), Current(b.series, INVOICE_SERIES, year));
      assert CountsUpTo(NoteValues(b.notes, year), Current(b.series, CREDIT_NOTE_SERIES, year));
    }
  }

  lemma CancelSound(b: Ledgers, i: nat, reason: string, today: int)
    requires Sound(b) && i < |b.invoices|
    ensures var r := CancelInvoice(b, i, reason, today); r.Done? ==> Sound(r.value)
  {
    var r := CancelInvoice(b, i, reason, today);
    if r.Done? && r.value != b {
      var b' := r.value;
      assert InvoicePosted(b, i);
      assert Extends(b, b');
      RowsStayExplained(b, b');
      CancelPosts(b, b', i);
      OtherRowsCreditNothing(b, b', b'.ledger[|b.ledger|]);
      SameNumbers(b, b');
    }
  }

  lemma CancelPosts(b: Ledgers, b': Ledgers, i: nat)
    requires Posted(b) && i < |b.invoices| && b'.notes == b.notes && b'.payments == b.payments && !HasNotes(b.notes, i)
    requires |b'.ledger| == |b.ledger| + 1 && b'.ledger == b.ledger + [b'.ledger[|b.ledger|]]
    requires b'.invoices == b.invoices[i := b.invoices[i].(status := CANCELLED, cancelEntry := Some(|b.ledger|))]
    requires NamesSource(b'.ledger[|b.ledger|].entry, ADJUSTMENT, INVOICE, i)
    ensures forall i :: 0 <= i < |b'.invoices| ==> InvoicePosted(b', i)
    ensures forall n :: 0 <= n < |b'.notes| ==> NotePosted(b', n)
    ensures forall p :: 0 <= p < |b'.payments| ==> PaymentPosted(b', p)
  {
    forall j | 0 <= j < |b'.invoices| ensures InvoicePosted(b', j) { assert InvoicePosted(b, j); }
    forall n | 0 <= n < |b'.notes| ensures NotePosted(b', n) { assert NotePosted(b, n); }
    forall p | 0 <= p < |b'.payments| ensures PaymentPosted(b', p) { assert PaymentPosted(b, p); }
  }

  /** `b'` adds one note against invoice `i`, and its row. */
  ghost predicate AddsNote(b: Ledgers, b': Ledgers, i: nat) {
    && i < |b.invoices| && b'.invoices == b.invoices && b'.payments == b.payments
    && |b'.notes| == |b.notes| + 1 && b'.notes == b.notes + [b'.notes[|b.notes|]]
    && |b'.ledger| == |b.ledger| + 1 && b'.ledger == b.ledger + [b'.ledger[|b.ledger|]]
    && var note, row := b'.notes[|b.notes|], b'.ledger[|b.ledger|];
       && note.invoice == i && note.entry == |b.ledger| && note.customer == b.invoices[i].customer
       && NamesSource(row.entry, CREDIT_NOTE, CREDIT_NOTE, |b.notes|) && row.entry.amount == -note.header.total
       && Explained(b', |b.ledger|)
  }

  lemma InsertAddsNote(b: Ledgers, i: nat, header: Header, lines: seq<DocumentLine>, a: Allocation, on: Day, uuid: Option<Uuid>)
    requires i < |b.invoices|
    ensures var r := InsertNote(b, i, header, lines, a, on, uuid);
            r.Done? ==>
              && AddsNote(b, r.value, i) && r.value.series == a.table
              && IndexWhere(NoteNumbered(a.number), b.notes) < 0
              && var note := r.value.notes[|b.notes|];
                 note.year == a.year && note.value == a.value && note.number == a.number && note.header == header && note.lines == lines && note.uuid == uuid && note.on == on
  {
  }

  lemma CreditAddsNote(b: Ledgers, i: nat, requests: seq<Request>, reason: string, on: Day, uuid: Option<Uuid>)
    requires i < |b.invoices| && Positive(requests)
    ensures var r := IssueCreditNote(b, i, requests, reason, on, uuid);
            r.Done? && r.value != b ==>
              && AddsNote(b, r.value, i) && b.invoices[i].status == ISSUED
              && AllocateNumber(b.series, CREDIT_NOTE_SERIES, on).Done?
              && var (a, note) := (AllocateNumber(b.series, CREDIT_NOTE_SERIES, on).value, r.value.notes[|b.notes|]);
                 && r.value.series == a.table && note.year == a.year && note.value == a.value && note.number == a.number
                 && IndexWhere(NoteNumbered(a.number), b.notes) < 0
                 && CreditedTotal(b.notes, i) + note.header.total <= b.invoices[i].header.total
                 && note.uuid == uuid && note.on == on
  {
    var credited := CreditLines(i, requests, b.invoices[i].header.gst.igst == 0);
    var allocation := AllocateNumber(b.series, CREDIT_NOTE_SERIES, on);
    if credited.Done? && allocation.Done? {
      InsertAddsNote(b, i, CreditHeader(credited.value, b.invoices[i].header.gst.igst == 0), credited.value, allocation.value, on, uuid);
    }
  }

  lemma CreditSound(b: Ledgers, i: nat, requests: seq<Request>, reason: string, on: Day, uuid: Option<Uuid>)
    requires Sound(b) && i < |b.invoices| && Positive(requests)
    ensures var r := IssueCreditNote(b, i, requests, reason, on, uuid); r.Done? ==> Sound(r.value)
  {
    var r := IssueCreditNote(b, i, requests, reason, on, uuid);
    CreditAddsNote(b, i, requests, reason, on, uuid);
    if r.Done? && r.value != b {
      var b' := r.value;
      NoteKeepsRows(b, b', i);
      CreditPosts(b, b', i);
      CreditCapped(b, b', i);
      CreditUnique(b, b', i);
      CreditGapless(b, b', on);
    }
  }

  lemma NoteKeepsRows(b: Ledgers, b': Ledgers, i: nat)
    requires Posted(b) && AddsNote(b, b', i)
    ensures forall k :: 0 <= k < |b'.ledger| ==> Explained(b', k)
  {
    assert b'.notes[..|b.notes|] == b.notes;
    RowsStayExplained(b, b');
  }

  lemma CreditPosts(b: Ledgers, b': Ledgers, i: nat)
    requires Posted(b) && AddsNote(b, b', i) && b.invoices[i].status == ISSUED
    ensures forall i :: 0 <= i < |b'.invoices| ==> InvoicePosted(b', i)
    ensures forall n :: 0 <= n < |b'.notes| ==> NotePosted(b', n)
    ensures forall p :: 0 <= p < |b'.payments| ==> PaymentPosted(b', p)
  {
    forall j | 0 <= j < |b'.invoices| ensures InvoicePosted(b', j) { assert InvoicePosted(b, j); }
    forall n | 0 <= n < |b'.notes| ensures NotePosted(b', n) {
      if n < |b.notes| { assert NotePosted(b, n) && b'.notes[n] == b.notes[n]; }
    }
    forall p | 0 <= p < |b'.payments| ensures PaymentPosted(b', p) { assert PaymentPosted(b, p); }
  }

  lemma CreditCapped(b: Ledgers, b': Ledgers, i: nat)
    requires Posted(b) && Capped(b) && AddsNote(b, b', i)
    requires CreditedTotal(b.notes, i) + b'.notes[|b.notes|].header.total <= b.invoices[i].header.total
    ensures Capped(b')
  {
    var note, row := b'.notes[|b.notes|], b'.ledger[|b.ledger|];
    forall j | 0 <= j < |b'.invoices|
      ensures CreditedTotal(b'.notes, j) <= b'.invoices[j].header.total
      ensures SumOf(NoteRowValue(b'.notes, j), b'.ledger) == CreditedTotal(b'.notes, j)
    {
      SumOfSnoc(NoteValue(j), b.notes, note);
      SumOfSnoc(NoteRowValue(b'.notes, j), b.ledger, row);
      forall k | 0 <= k < |b.ledger| ensures NoteRowValue(b'.notes, j)(b.ledger[k]) == NoteRowValue(b.notes, j)(b.ledger[k]) {
        assert Explained(b, k);
      }
      SumOfAgree(NoteRowValue(b'.notes, j), NoteRowValue(b.notes, j), b.ledger);
    }
  }

  lemma CreditUnique(b: Ledgers, b': Ledgers, i: nat)
    requires Unique(b) && AddsNote(b, b', i) && IndexWhere(NoteNumbered(b'.notes[|b.notes|].number), b.notes) < 0
    ensures Unique(b')
  {
    var number := b'.notes[|b.notes|].number;
    forall n | 0 <= n < |b.notes| ensures b'.notes[n].number != number {
      assert !NoteNumbered(number)(b.notes[n]);
    }
  }

  lemma CreditGapless(b: Ledgers, b': Ledgers, on: Day)
    requires Gapless(b) && b'.invoices == b.invoices && AllocateNumber(b.series, CREDIT_NOTE_SERIES, on).Done?
    requires var a := AllocateNumber(b.series, CREDIT_NOTE_SERIES, on).value;
             && b'.series == a.table && |b'.notes| == |b.notes| + 1 && b'.notes == b.notes + [b'.notes[|b.notes|]]
             && b'.notes[|b.notes|].year == a.year && b'.notes[|b.notes|].value == a.value
    ensures Gapless(b')
  {
    forall year
      ensures CountsUpTo(InvoiceValues(b'.invoices, year), Current(b'.series, INVOICE_SERIES, year))
      ensures CountsUpTo(NoteValues(b'.notes, year), Current(b'.series, CREDIT_NOTE_SERIES, year))
    {
      AllocationAdvancesOneSeries(b.series, CREDIT_NOTE_SERIES, on, INVOICE_SERIES, year);
      AllocationAdvancesOneSeries(b.series, CREDIT_NOTE_SERIES, on, CREDIT_NOTE_SERIES, year);
      assert CountsUpTo(InvoiceValues(b.invoices, year), Current(b.series, INVOICE_SERIES, year));
      assert CountsUpTo(NoteValues(b.notes, year), Current(b.series, CREDIT_NOTE_SERIES, year));
    }
  }

  // ------------------------------------------------------------------ money that is not a document of sale

  lemma PaymentSound(b: Ledgers, b': Ledgers)
    requires Sound(b) && b'.series == b.series && b'.invoices == b.invoices && b'.notes == b.notes
    requires |b'.ledger| == |b.ledger| + 1 && b'.ledger == b.ledger + [b'.ledger[|b.ledger|]] && Extends(b, b') && Explained(b', |b.ledger|)
    requires var e := b'.ledger[|b.ledger|].entry; e.kind != CREDIT_NOTE && e.kind != OPENING
    requires forall p :: 0 <= p < |b'.payments| ==> PaymentPosted(b', p)
    ensures Sound(b')
  {
    RowsStayExplained(b, b');
    forall i | 0 <= i < |b'.invoices| ensures InvoicePosted(b', i) { assert InvoicePosted(b, i); }
    forall n | 0 <= n < |b'.notes| ensures NotePosted(b', n) { assert NotePosted(b, n); }
    OtherRowsCreditNothing(b, b', b'.ledger[|b.ledger|]);
    SameNumbers(b, b');
  }

  lemma RecordPaymentSound(b: Ledgers, customer: int, active: bool, amount: int, validMethod: bool, on: int, uuid: Option<Uuid>)
    requires Sound(b)
    ensures var r := RecordPayment(b, customer, active, amount, validMethod, on, uuid); r.Done? ==> Sound(r.value)
  {
    var r := RecordPayment(b, customer, active, amount, validMethod, on, uuid);
    if r.Done? && r.value != b {
      var b' := r.value;
      forall p | 0 <= p < |b'.payments| ensures PaymentPosted(b', p) {
        if p < |b.payments| { assert PaymentPosted(b, p); }
      }
      PaymentSound(b, b');
    }
  }

  lemma ReverseSound(b: Ledgers, p: nat, reason: string, today: int)
    requires Sound(b) && p < |b.payments|
    ensures var r := ReversePayment(b, p, reason, today); r.Done? ==> Sound(r.value)
  {
    var r := ReversePayment(b, p, reason, today);
    if r.Done? && r.value != b {
      var b' := r.value;
      forall q | 0 <= q < |b'.payments| ensures PaymentPosted(b', q) { assert PaymentPosted(b, q); }
      assert PaymentPosted(b, p);
      PaymentSound(b, b');
    }
  }

  lemma WriteOffSound(b: Ledgers, customer: int, amount: int, reason: string, on: int)
    requires Sound(b)
    ensures var r := WriteOff(b, customer, amount, reason, on); r.Done? ==> Sound(r.value)
  {
    var r := WriteOff(b, customer, amount, reason, on);
    if r.Done? {
      forall p | 0 <= p < |b.payments| ensures PaymentPosted(r.value, p) { assert PaymentPosted(b, p); }
      PaymentSound(b, r.value);
    }
  }

  /** One explained row more, and no document more. */
  lemma BareRowPosts(b: Ledgers, b': Ledgers)
    requires Posted(b) && b' == b.(ledger := b'.ledger) && |b'.ledger| == |b.ledger| + 1 && b'.ledger == b.ledger + [b'.ledger[|b.ledger|]]
    requires Explained(b', |b.ledger|)
    ensures Posted(b')
  {
    RowsStayExplained(b, b');
    forall i | 0 <= i < |b'.invoices| ensures InvoicePosted(b', i) { assert InvoicePosted(b, i); }
    forall n | 0 <= n < |b'.notes| ensures NotePosted(b', n) { assert NotePosted(b, n); }
    forall p | 0 <= p < |b'.payments| ensures PaymentPosted(b', p) { assert PaymentPosted(b, p); }
  }

  lemma OpeningSound(b: Ledgers, customer: int, amount: int, on: int)
    requires Sound(b)
    ensures var r := LoadOpening(b, customer, amount, on); r.Done? ==> Sound(r.value)
  {
    var r := LoadOpening(b, customer, amount, on);
    if r.Done? && r.value != b {
      var b' := r.value;
      BareRowPosts(b, b');
      OtherRowsCreditNothing(b, b', b'.ledger[|b.ledger|]);
      assert forall k, c :: 0 <= k < |b.ledger| && IsOpening(b.ledger[k], c) ==> c != customer;
    }
  }

  // ------------------------------------------------------------------ runs

  datatype Action =
    | Issue(sale: Sale, intraState: bool, on: Day, uuid: Option<Uuid>)
    | Cancel(invoice: nat, reason: string, today: int)
    | Credit(invoice: nat, requests: seq<Request>, reason: string, on: Day, uuid: Option<Uuid>)
    | Collect(customer: int, active: bool, amount: int, validMethod: bool, date: int, uuid: Option<Uuid>)
    | Reverse(payment: nat, reason: string, today: int)
    | Forgive(customer: int, amount: int, reason: string, date: int)
    | Open(customer: int, amount: int, date: int)

  /** The order behind an invoice is priced, and stored lines have positive quantities. */
  predicate Sane(a: Action) {
    && (a.Issue? ==> forall i :: 0 <= i < |a.sale.lines| ==> Priced(a.sale.lines[i]))
    && (a.Credit? ==> Positive(a.requests))
  }

  function Try(b: Ledgers, a: Action): Outcome<Ledgers>
    requires Sane(a)
  {
    match a
    case Issue(sale, intraState, on, uuid) => IssueInvoice(b, sale, intraState, on, uuid)
    case Cancel(i, reason, today) => if i < |b.invoices| then CancelInvoice(b, i, reason, today) else Refused("NOT_FOUND")
    case Credit(i, requests, reason, on, uuid) => if i < |b.invoices| then IssueCreditNote(b, i, requests, reason, on, uuid) else Refused("NOT_FOUND")
    case Collect(customer, active, amount, validMethod, date, uuid) => RecordPayment(b, customer, active, amount, validMethod, date, uuid)
    case Reverse(p, reason, today) => if p < |b.payments| then ReversePayment(b, p, reason, today) else Refused("NOT_FOUND")
    case Forgive(customer, amount, reason, date) => WriteOff(b, customer, amount, reason, date)
    case Open(customer, amount, date) => LoadOpening(b, customer, amount, date)
  }

  function Next(b: Ledgers, a: Action): Ledgers
    requires Sane(a)
  {
    var r := Try(b, a);
    if r.Done? then r.value else b
  }

  predicate AllSane(actions: seq<Action>) { forall i :: 0 <= i < |actions| ==> Sane(actions[i]) }

  function Run(b: Ledgers, actions: seq<Action>): Ledgers
    requires AllSane(actions)
  {
    if |actions| == 0 then b else Next(Run(b, actions[..|actions| - 1]), actions[|actions| - 1])
  }

  lemma NextSound(b: Ledgers, a: Action)
    requires Sound(b) && Sane(a)
    ensures Sound(Next(b, a))
  {
    match a
    case Issue(sale, intraState, on, uuid) => IssueSound(b, sale, intraState, on, uuid);
    case Cancel(i, reason, today) => if i < |b.invoices| { CancelSound(b, i, reason, today); }
    case Credit(i, requests, reason, on, uuid) => if i < |b.invoices| { CreditSound(b, i, requests, reason, on, uuid); }
    case Collect(customer, active, amount, validMethod, date, uuid) => RecordPaymentSound(b, customer, active, amount, validMethod, date, uuid);
    case Reverse(p, reason, today) => if p < |b.payments| { ReverseSound(b, p, reason, today); }
    case Forgive(customer, amount, reason, date) => WriteOffSound(b, customer, amount, reason, date);
    case Open(customer, amount, date) => OpeningSound(b, customer, amount, date);
  }

  /**
   Over every run of committed, refused and replayed services: documents and ledger rows correspond
   one to one; no invoice is credited beyond its total and a cancelled one not at all; each order has
   at most one invoice; and the numbers of each series and year are 1 to its counter, each used once.
   */
  lemma EveryRunIsSound(actions: seq<Action>)
    requires AllSane(actions)
    ensures Sound(Run(EmptyBooks, actions))
  {
    RunSound(EmptyBooks, actions);
  }

  lemma {:induction false} RunSound(b: Ledgers, actions: seq<Action>)
    requires Sound(b) && AllSane(actions)
    ensures Sound(Run(b, actions))
  {
    if |actions| != 0 {
      RunSound(b, actions[..|actions| - 1]);
      NextSound(Run(b, actions[..|actions| - 1]), actions[|actions| - 1]);
    }
  }

  // ------------------------------------------------------------------ the derived balance

  function CustomerAmount(c: int): Row -> int { (r: Row) => if r.customerId == c then r.entry.amount else 0 }

  function InvoiceWorth(c: int): Invoice -> int { (i: Invoice) => if i.customer == c && i.status == ISSUED then i.header.total else 0 }
  function NoteWorth(c: int): Note -> int { (n: Note) => if n.customer == c then n.header.total else 0 }
  function PaymentWorth(c: int): Payment -> int { (p: Payment) => if p.customer == c && !p.reversed then p.amount else 0 }

  /** Openings and write-offs, which no document stands behind. */
  function BareAmount(c: int): Row -> int {
    (r: Row) => if r.customerId == c && r.entry.sourceType == BLANK then r.entry.amount else 0
  }

  /**
   The balance nobody stores: what a customer's rows sum to is its uncancelled invoices, less its
   credit notes, less its unreversed payments, with its opening and write-offs.
   */
  predicate BalanceIsDocuments(b: Ledgers, c: int) {
    SumOf(CustomerAmount(c), b.ledger)
    == SumOf(InvoiceWorth(c), b.invoices) - SumOf(NoteWorth(c), b.notes) - SumOf(PaymentWorth(c), b.payments) + SumOf(BareAmount(c), b.ledger)
  }

  lemma IssueBalances(b: Ledgers, sale: Sale, intraState: bool, on: Day, uuid: Option<Uuid>, c: int)
    requires BalanceIsDocuments(b, c)
    ensures var r := IssueInvoice(b, sale, intraState, on, uuid); r.Done? ==> BalanceIsDocuments(r.value, c)
  {
    PostingBalances(b, sale, intraState, InvoiceHeader(sale.lines, intraState), InvoiceLines(sale.lines, intraState), on, uuid, c);
  }

  lemma PostingBalances(b: Ledgers, sale: Sale, intraState: bool, header: Header, lines: seq<DocumentLine>, on: Day, uuid: Option<Uuid>, c: int)
    requires BalanceIsDocuments(b, c)
    ensures var r := PostInvoice(b, sale, intraState, header, lines, on, uuid); r.Done? ==> BalanceIsDocuments(r.value, c)
  {
    var r := PostInvoice(b, sale, intraState, header, lines, on, uuid);
    if r.Done? {
      RowBalances(b, r.value, c);
      SumOfSnoc(InvoiceWorth(c), b.invoices, r.value.invoices[|b.invoices|]);
    }
  }

  lemma RowBalances(b: Ledgers, b': Ledgers, c: int)
    requires |b'.ledger| == |b.ledger| + 1 && b'.ledger == b.ledger + [b'.ledger[|b.ledger|]]
    ensures SumOf(CustomerAmount(c), b'.ledger) == SumOf(CustomerAmount(c), b.ledger) + CustomerAmount(c)(b'.ledger[|b.ledger|])
    ensures SumOf(BareAmount(c), b'.ledger) == SumOf(BareAmount(c), b.ledger) + BareAmount(c)(b'.ledger[|b.ledger|])
  {
    SumOfSnoc(CustomerAmount(c), b.ledger, b'.ledger[|b.ledger|]);
    SumOfSnoc(BareAmount(c), b.ledger, b'.ledger[|b.ledger|]);
  }

  lemma CancelBalances(b: Ledgers, i: nat, reason: string, today: int, c: int)
    requires BalanceIsDocuments(b, c) && i < |b.invoices|
    ensures var r := CancelInvoice(b, i, reason, today); r.Done? ==> BalanceIsDocuments(r.value, c)
  {
    var r := CancelInvoice(b, i, reason, today);
    if r.Done? && r.value != b {
      RowBalances(b, r.value, c);
      SumOfUpdate(InvoiceWorth(c), b.invoices, i, r.value.invoices[i]);
    }
  }

  lemma CreditBalances(b: Ledgers, i: nat, requests: seq<Request>, reason: string, on: Day, uuid: Option<Uuid>, c: int)
    requires BalanceIsDocuments(b, c) && i < |b.invoices| && Positive(requests)
    ensures var r := IssueCreditNote(b, i, requests, reason, on, uuid); r.Done? ==> BalanceIsDocuments(r.value, c)
  {
    var r := IssueCreditNote(b, i, requests, reason, on, uuid);
    if r.Done? && r.value != b {
      CreditAddsNote(b, i, requests, reason, on, uuid);
      RowBalances(b, r.value, c);
      SumOfSnoc(NoteWorth(c), b.notes, r.value.notes[|b.notes|]);
      assert r.value.ledger[|b.ledger|].customerId == b.invoices[i].customer;
    }
  }

  lemma CollectBalances(b: Ledgers, customer: int, active: bool, amount: int, validMethod: bool, on: int, uuid: Option<Uuid>, c: int)
    requires BalanceIsDocuments(b, c)
    ensures var r := RecordPayment(b, customer, active, amount, validMethod, on, uuid); r.Done? ==> BalanceIsDocuments(r.value, c)
  {
    var r := RecordPayment(b, customer, active, amount, validMethod, on, uuid);
    if r.Done? && r.value != b {
      RowBalances(b, r.value, c);
      SumOfSnoc(PaymentWorth(c), b.payments, r.value.payments[|b.payments|]);
    }
  }

  lemma ReverseBalances(b: Ledgers, p: nat, reason: string, today: int, c: int)
    requires BalanceIsDocuments(b, c) && p < |b.payments|
    ensures var r := ReversePayment(b, p, reason, today); r.Done? ==> BalanceIsDocuments(r.value, c)
  {
    var r := ReversePayment(b, p, reason, today);
    if r.Done? && r.value != b {
      RowBalances(b, r.value, c);
      SumOfUpdate(PaymentWorth(c), b.payments, p, r.value.payments[p]);
    }
  }

  /** A row no document stands behind. */
  lemma BareRowBalances(b: Ledgers, b': Ledgers, c: int)
    requires BalanceIsDocuments(b, c) && |b'.ledger| == |b.ledger| + 1 && b'.ledger == b.ledger + [b'.ledger[|b.ledger|]]
    requires b' == b.(ledger := b'.ledger) && b'.ledger[|b.ledger|].entry.sourceType == BLANK
    ensures BalanceIsDocuments(b', c)
  {
    RowBalances(b, b', c);
  }

  lemma MoneyBalances(b: Ledgers, a: Action, c: int)
    requires BalanceIsDocuments(b, c) && Sane(a) && (a.Collect? || a.Reverse? || a.Forgive? || a.Open?)
    ensures BalanceIsDocuments(Next(b, a), c)
  {
    match a {
      case Collect(customer, active, amount, validMethod, on, uuid) => CollectBalances(b, customer, active, amount, validMethod, on, uuid, c);
      case Reverse(p, reason, today) => if p < |b.payments| { ReverseBalances(b, p, reason, today, c); }
      case Forgive(_, _, _, _) => if Next(b, a) != b { BareRowBalances(b, Next(b, a), c); }
      case Open(_, _, _) => if Next(b, a) != b { BareRowBalances(b, Next(b, a), c); }
    }
  }

  lemma NextBalances(b: Ledgers, a: Action, c: int)
    requires BalanceIsDocuments(b, c) && Sane(a)
    ensures BalanceIsDocuments(Next(b, a), c)
  {
    match a
    case Issue(sale, intraState, on, uuid) => IssueBalances(b, sale, intraState, on, uuid, c);
    case Cancel(i, reason, today) => if i < |b.invoices| { CancelBalances(b, i, reason, today, c); }
    case Credit(i, requests, reason, on, uuid) => if i < |b.invoices| { CreditBalances(b, i, requests, reason, on, uuid, c); }
    case _ => MoneyBalances(b, a, c);
  }

  lemma {:induction false} EveryRunBalances(actions: seq<Action>, c: int)
    requires AllSane(actions)
    ensures BalanceIsDocuments(Run(EmptyBooks, actions), c)
  {
    if |actions| != 0 {
      EveryRunBalances(actions[..|actions| - 1], c);
      NextBalances(Run(EmptyBooks, actions[..|actions| - 1]), actions[|actions| - 1], c);
    }
  }

  // ------------------------------------------------------------------ one row a posting

  predicate Names(r: Row, kind: Code, sourceType: Code, sourceId: Option<int>) {
    r.entry.kind == kind && r.entry.sourceType == sourceType && r.entry.sourceId == sourceId
  }

  predicate Charges(r: Row, customer: int, amount: int, date: int, salesOrder: Option<int>) {
    r.customerId == customer && r.entry.amount == amount && r.entry.date == date && r.salesOrder == salesOrder
  }

  /** The row a request posts: whose it is, which way it goes, the day it was asked for, and the document behind it. */
  predicate PostedFor(b: Ledgers, a: Action, r: Row) {
    match a
    case Issue(sale, _, on, _) =>
      && r.customerId == sale.customer && r.entry.amount > 0 && r.entry.date == on.number && r.salesOrder == Some(sale.order)
      && Names(r, INVOICE, INVOICE, Some(|b.invoices| + 1))
    case Cancel(i, _, today) =>
      && i < |b.invoices| && Names(r, ADJUSTMENT, INVOICE, Some(i + 1))
      && Charges(r, b.invoices[i].customer, -b.invoices[i].header.total, today, Some(b.invoices[i].order))
      && r.entry.narration == "Cancellation of invoice " + b.invoices[i].number
    case Credit(i, _, _, on, _) =>
      && i < |b.invoices| && r.customerId == b.invoices[i].customer && r.entry.amount < 0 && r.entry.date == on.number
      && r.salesOrder == Some(b.invoices[i].order) && Names(r, CREDIT_NOTE, CREDIT_NOTE, Some(|b.notes| + 1))
    case Collect(customer, _, amount, _, date, _) =>
      Names(r, PAYMENT, PAYMENT, Some(|b.payments| + 1)) && Charges(r, customer, -amount, date, None)
    case Reverse(p, _, today) =>
      p < |b.payments| && Names(r, ADJUSTMENT, PAYMENT, Some(p + 1)) && Charges(r, b.payments[p].customer, b.payments[p].amount, today, None)
    case Forgive(customer, amount, reason, date) =>
      Names(r, WRITE_OFF, BLANK, None) && Charges(r, customer, -amount, date, None) && r.entry.narration == "Write-off: " + reason
    case Open(customer, amount, date) => Names(r, OPENING, BLANK, None) && Charges(r, customer, amount, date, None)
  }

  ghost predicate PostsOne(b: Ledgers, a: Action, b': Ledgers) {
    |b'.ledger| == |b.ledger| + 1 && b'.ledger == b.ledger + [b'.ledger[|b.ledger|]] && PostedFor(b, a, b'.ledger[|b.ledger|])
  }

  lemma IssuePostsOne(b: Ledgers, sale: Sale, intraState: bool, on: Day, uuid: Option<Uuid>)
    ensures var r := IssueInvoice(b, sale, intraState, on, uuid);
            r.Done? && r.value != b ==> PostsOne(b, Issue(sale, intraState, on, uuid), r.value)
  {
    PostingPostsOne(b, sale, intraState, InvoiceHeader(sale.lines, intraState), InvoiceLines(sale.lines, intraState), on, uuid);
  }

  lemma PostingPostsOne(b: Ledgers, sale: Sale, intraState: bool, header: Header, lines: seq<DocumentLine>, on: Day, uuid: Option<Uuid>)
    ensures var r := PostInvoice(b, sale, intraState, header, lines, on, uuid);
            r.Done? ==> PostsOne(b, Issue(sale, intraState, on, uuid), r.value)
  {
  }

  lemma CreditPostsOne(b: Ledgers, i: nat, requests: seq<Request>, reason: string, on: Day, uuid: Option<Uuid>)
    requires i < |b.invoices| && Positive(requests)
    ensures var r := IssueCreditNote(b, i, requests, reason, on, uuid);
            r.Done? && r.value != b ==> PostsOne(b, Credit(i, requests, reason, on, uuid), r.value)
  {
    var lines := CreditLines(i, requests, b.invoices[i].header.gst.igst == 0);
    if lines.Done? { NotePostsOne(b, i, requests, reason, CreditHeader(lines.value, b.invoices[i].header.gst.igst == 0), lines.value, on, uuid); }
  }

  lemma NotePostsOne(b: Ledgers, i: nat, requests: seq<Request>, reason: string, header: Header, lines: seq<DocumentLine>, on: Day, uuid: Option<Uuid>)
    requires i < |b.invoices| && Positive(requests)
    ensures var r := PostNote(b, i, header, lines, on, uuid);
            r.Done? ==> PostsOne(b, Credit(i, requests, reason, on, uuid), r.value)
  {
  }

  /** Whatever changes the books posts one row for it, of the party, the day and the document asked for. */
  lemma EveryPostingIsOneRow(b: Ledgers, a: Action)
    requires Sane(a)
    ensures Next(b, a) == b || PostsOne(b, a, Next(b, a))
  {
    match a
    case Issue(sale, intraState, on, uuid) => IssuePostsOne(b, sale, intraState, on, uuid);
    case Credit(i, requests, reason, on, uuid) => if i < |b.invoices| { CreditPostsOne(b, i, requests, reason, on, uuid); }
    case _ =>
  }

  /** The books change exactly for a request that is in order and not yet served. */
  predicate Due(b: Ledgers, a: Action)
    requires !a.Issue? && !a.Credit?
  {
    match a
    case Cancel(i, reason, _) => i < |b.invoices| && reason != "" && b.invoices[i].status == ISSUED && !HasNotes(b.notes, i)
    case Collect(_, active, amount, validMethod, _, uuid) =>
      active && amount > 0 && validMethod && (uuid.Some? ==> forall p :: 0 <= p < |b.payments| ==> b.payments[p].uuid != uuid)
    case Reverse(p, reason, _) => p < |b.payments| && reason != "" && !b.payments[p].reversed
    case Forgive(_, amount, reason, _) => amount > 0 && reason != ""
    case Open(customer, amount, _) => amount > 0 && forall k :: 0 <= k < |b.ledger| ==> b.ledger[k].customerId != customer || b.ledger[k].entry.kind != OPENING
  }

  lemma MoneyMovesExactlyWhen(b: Ledgers, a: Action)
    requires Sound(b) && !a.Issue? && !a.Credit?
    ensures Next(b, a) != b <==> Due(b, a)
  {
    if a.Cancel? && a.invoice < |b.invoices| { assert InvoicePosted(b, a.invoice) && Explained(b, b.invoices[a.invoice].entry); }
    if a.Reverse? && a.payment < |b.payments| { assert PaymentPosted(b, a.payment) && Explained(b, b.payments[a.payment].entry); }
  }

  // ------------------------------------------------------------------ what was entered by hand

  /** A write-off the service accepts, at the amount entered. */
  function Forgiven(c: int): Action -> int {
    (a: Action) => if a.Forgive? && a.customer == c && a.reason != "" && a.amount > 0 then a.amount else 0
  }

  function Opens(c: int): Action -> bool { (a: Action) => a.Open? && a.customer == c && a.amount > 0 }

  /** The first opening balance entered for a customer; any later one is answered with it. */
  function OpenedAt(actions: seq<Action>, c: int): int {
    var k := IndexWhere(Opens(c), actions);
    if k >= 0 then actions[k].amount else 0
  }

  ghost predicate SameBare(b: Ledgers, b': Ledgers, c: int) {
    SumOf(BareAmount(c), b'.ledger) == SumOf(BareAmount(c), b.ledger) && (HasOpening(b'.ledger, c) <==> HasOpening(b.ledger, c))
  }

  /** A document's row, or none: neither an opening nor a write-off. */
  lemma DocumentRowIsNotBare(b: Ledgers, b': Ledgers, c: int)
    requires b'.ledger == b.ledger
             || (|b'.ledger| == |b.ledger| + 1 && b'.ledger == b.ledger + [b'.ledger[|b.ledger|]]
                 && b'.ledger[|b.ledger|].entry.sourceType != BLANK && b'.ledger[|b.ledger|].entry.kind != OPENING)
    ensures SameBare(b, b', c)
  {
    if b'.ledger != b.ledger {
      RowBalances(b, b', c);
      if HasOpening(b.ledger, c) {
        var k :| 0 <= k < |b.ledger| && IsOpening(b.ledger[k], c);
        assert IsOpening(b'.ledger[k], c);
      }
    }
  }

  lemma IssueIsNotBare(b: Ledgers, sale: Sale, intraState: bool, on: Day, uuid: Option<Uuid>, c: int)
    ensures var r := IssueInvoice(b, sale, intraState, on, uuid); r.Done? ==> SameBare(b, r.value, c)
  {
    var r := IssueInvoice(b, sale, intraState, on, uuid);
    if r.Done? && r.value != b {
      IssueAddsInvoice(b, sale, intraState, on, uuid);
      DocumentRowIsNotBare(b, r.value, c);
    }
  }

  lemma CreditIsNotBare(b: Ledgers, i: nat, requests: seq<Request>, reason: string, on: Day, uuid: Option<Uuid>, c: int)
    requires i < |b.invoices| && Positive(requests)
    ensures var r := IssueCreditNote(b, i, requests, reason, on, uuid); r.Done? ==> SameBare(b, r.value, c)
  {
    var r := IssueCreditNote(b, i, requests, reason, on, uuid);
    if r.Done? && r.value != b {
      CreditAddsNote(b, i, requests, reason, on, uuid);
      DocumentRowIsNotBare(b, r.value, c);
    }
  }

  lemma DocumentsAreNotBare(b: Ledgers, a: Action, c: int)
    requires Sane(a) && !a.Forgive? && !a.Open?
    ensures SameBare(b, Next(b, a), c)
  {
    if a.Issue? {
      IssueIsNotBare(b, a.sale, a.intraState, a.on, a.uuid, c);
    } else if a.Credit? {
      if a.invoice < |b.invoices| { CreditIsNotBare(b, a.invoice, a.requests, a.reason, a.on, a.uuid, c); }
    } else {
      DocumentRowIsNotBare(b, Next(b, a), c);
    }
  }

  /** A write-off takes off what was entered; an opening adds it unless the customer has one. */
  lemma EnteredByHand(b: Ledgers, a: Action, c: int)
    requires a.Forgive? || a.Open?
    ensures
      var b' := Next(b, a);
      && SumOf(BareAmount(c), b'.ledger)
         == SumOf(BareAmount(c), b.ledger) - Forgiven(c)(a) + (if Opens(c)(a) && !HasOpening(b.ledger, c) then a.amount else 0)
      && (HasOpening(b'.ledger, c) <==> HasOpening(b.ledger, c) || Opens(c)(a))
  {
    var b' := Next(b, a);
    if b' != b {
      RowBalances(b, b', c);
      if k :| 0 <= k < |b.ledger| && IsOpening(b.ledger[k], c) { assert IsOpening(b'.ledger[k], c); }
      if Opens(c)(a) { assert IsOpening(b'.ledger[|b.ledger|], c); }
    }
  }

  /** The bare rows are the first opening entered less every accepted write-off. */
  ghost predicate BareIsEntered(b: Ledgers, opening: int, forgiven: int, known: bool, c: int) {
    SumOf(BareAmount(c), b.ledger) == opening - forgiven && (HasOpening(b.ledger, c) <==> known)
  }

  lemma NextIsEntered(b: Ledgers, a: Action, opening: int, forgiven: int, known: bool, c: int)
    requires BareIsEntered(b, opening, forgiven, known, c) && Sane(a)
    ensures BareIsEntered(Next(b, a), opening + (if Opens(c)(a) && !known then a.amount else 0), forgiven + Forgiven(c)(a), known || Opens(c)(a), c)
  {
    if a.Forgive? || a.Open? { EnteredByHand(b, a, c); } else { DocumentsAreNotBare(b, a, c); }
  }

  lemma {:induction false} EveryRunIsEntered(actions: seq<Action>, c: int)
    requires AllSane(actions)
    ensures BareIsEntered(Run(EmptyBooks, actions), OpenedAt(actions, c), SumOf(Forgiven(c), actions), IndexWhere(Opens(c), actions) >= 0, c)
  {
    if |actions| != 0 {
      var front, a := actions[..|actions| - 1], actions[|actions| - 1];
      EveryRunIsEntered(front, c);
      NextIsEntered(Run(EmptyBooks, front), a, OpenedAt(front, c), SumOf(Forgiven(c), front), IndexWhere(Opens(c), front) >= 0, c);
    }
  }

  /** Over every run a customer owes the uncancelled invoices and the first opening balance entered, less the notes, the standing payments and every accepted write-off. */
  lemma EveryRunBalancesAsEntered(actions: seq<Action>, c: int)
    requires AllSane(actions)
    ensures
      var b := Run(EmptyBooks, actions);
      SumOf(CustomerAmount(c), b.ledger)
      == SumOf(InvoiceWorth(c), b.invoices) - SumOf(NoteWorth(c), b.notes) - SumOf(PaymentWorth(c), b.payments)
         + OpenedAt(actions, c) - SumOf(Forgiven(c), actions)
  {
    EveryRunBalances(actions, c);
    EveryRunIsEntered(actions, c);
  }

  // ------------------------------------------------------------------ replays

  /** The rows of every table stay; only a status, a reversal and the links they set ever change. */
  ghost predicate Grows(b: Ledgers, later: Ledgers) {
    && b.notes <= later.notes && b.ledger <= later.ledger
    && |b.invoices| <= |later.invoices| && |b.payments| <= |later.payments|
    && (forall i :: 0 <= i < |b.invoices| ==> InvoiceStays(b.invoices[i], later.invoices[i]))
    && (forall p :: 0 <= p < |b.payments| ==>
          later.payments[p].uuid == b.payments[p].uuid && (b.payments[p].reversed ==> later.payments[p].reversed))
  }

  predicate InvoiceStays(i: Invoice, j: Invoice) {
    && j.order == i.order && j.uuid == i.uuid && j.header == i.header && j.customer == i.customer && j.number == i.number
    && (i.status == CANCELLED ==> j.status == CANCELLED)
  }

  lemma NextGrows(b: Ledgers, a: Action)
    requires Sane(a)
    ensures Grows(b, Next(b, a))
  {
    match a
    case Issue(sale, intraState, on, uuid) => IssueAddsInvoice(b, sale, intraState, on, uuid);
    case Credit(i, requests, reason, on, uuid) => if i < |b.invoices| { CreditAddsNote(b, i, requests, reason, on, uuid); }
    case Cancel(_, _, _) =>
    case _ => MoneyGrows(b, a);
  }

  lemma MoneyGrows(b: Ledgers, a: Action)
    requires a.Collect? || a.Reverse? || a.Forgive? || a.Open?
    ensures Grows(b, Next(b, a))
  {
  }

  lemma {:induction false} RunGrows(b: Ledgers, actions: seq<Action>)
    requires AllSane(actions)
    ensures Grows(b, Run(b, actions))
  {
    if |actions| != 0 {
      RunGrows(b, actions[..|actions| - 1]);
      NextGrows(Run(b, actions[..|actions| - 1]), actions[|actions| - 1]);
    }
  }

  predicate InvoiceServes(i: Invoice, order: int, uuid: Option<Uuid>) { i.order == order || (uuid.Some? && i.uuid == uuid) }

  /** The tables already hold what this request asks for. */
  predicate Served(b: Ledgers, a: Action) {
    match a
    case Issue(sale, _, _, uuid) => exists i :: 0 <= i < |b.invoices| && InvoiceServes(b.invoices[i], sale.order, uuid)
    case Cancel(i, reason, _) => i < |b.invoices| && b.invoices[i].status == CANCELLED && reason != ""
    case Credit(i, requests, reason, _, uuid) =>
      i < |b.invoices| && reason != "" && |requests| > 0 && uuid.Some? && exists n :: 0 <= n < |b.notes| && b.notes[n].uuid == uuid
    case Collect(_, _, _, _, _, uuid) => uuid.Some? && PaymentKeyed(b.payments, uuid.value)
    case Reverse(p, reason, _) => p < |b.payments| && b.payments[p].reversed && reason != ""
    case Open(customer, amount, _) => HasOpening(b.ledger, customer) && amount > 0
    case Forgive(_, _, _, _) => false
  }

  /** Requests that identify themselves: what makes sending one again safe. */
  predicate Identified(a: Action) {
    match a
    case Credit(_, _, _, _, uuid) => uuid.Some?
    case Collect(_, _, _, _, _, uuid) => uuid.Some?
    case Forgive(_, _, _, _) => false
    case _ => true
  }

  lemma IssueIsServed(b: Ledgers, sale: Sale, intraState: bool, on: Day, uuid: Option<Uuid>)
    requires (forall i :: 0 <= i < |sale.lines| ==> Priced(sale.lines[i])) && IssueInvoice(b, sale, intraState, on, uuid).Done?
    ensures Served(IssueInvoice(b, sale, intraState, on, uuid).value, Issue(sale, intraState, on, uuid))
  {
    var b' := IssueInvoice(b, sale, intraState, on, uuid).value;
    if b' == b {
      var i := if uuid.Some? && IndexWhere(InvoiceKeyed(uuid.value), b.invoices) >= 0
               then IndexWhere(InvoiceKeyed(uuid.value), b.invoices) else IndexWhere(InvoiceOf(sale.order), b.invoices);
      assert InvoiceServes(b.invoices[i], sale.order, uuid);
    } else {
      IssueAddsInvoice(b, sale, intraState, on, uuid);
      assert InvoiceServes(b'.invoices[|b.invoices|], sale.order, uuid);
    }
  }

  lemma CreditIsServed(b: Ledgers, i: nat, requests: seq<Request>, reason: string, on: Day, uuid: Option<Uuid>)
    requires i < |b.invoices| && Positive(requests) && uuid.Some? && IssueCreditNote(b, i, requests, reason, on, uuid).Done?
    ensures Served(IssueCreditNote(b, i, requests, reason, on, uuid).value, Credit(i, requests, reason, on, uuid))
  {
    var b' := IssueCreditNote(b, i, requests, reason, on, uuid).value;
    if b' == b {
      var n := IndexWhere(NoteKeyed(uuid.value), b.notes);
      assert b.notes[n].uuid == uuid;
    } else {
      CreditAddsNote(b, i, requests, reason, on, uuid);
      assert b'.notes[|b.notes|].uuid == uuid;
    }
  }

  lemma CommittedIsServed(b: Ledgers, a: Action)
    requires Sane(a) && Identified(a) && Try(b, a).Done?
    ensures Served(Next(b, a), a)
  {
    var b' := Next(b, a);
    match a
    case Issue(sale, intraState, on, uuid) => IssueIsServed(b, sale, intraState, on, uuid);
    case Credit(i, requests, reason, on, uuid) => CreditIsServed(b, i, requests, reason, on, uuid);
    case Collect(_, _, _, _, _, uuid) => if b' != b { assert b'.payments[|b.payments|].uuid == uuid; }
    case Open(customer, _, _) => if b' != b { assert IsOpening(b'.ledger[|b.ledger|], customer); }
    case _ =>
  }

  lemma ServedStays(b: Ledgers, later: Ledgers, a: Action)
    requires Grows(b, later) && Served(b, a)
    ensures Served(later, a)
  {
    match a
    case Issue(sale, _, _, uuid) =>
      var i :| 0 <= i < |b.invoices| && InvoiceServes(b.invoices[i], sale.order, uuid);
      assert InvoiceStays(b.invoices[i], later.invoices[i]) && InvoiceServes(later.invoices[i], sale.order, uuid);
    case Cancel(i, _, _) => assert InvoiceStays(b.invoices[i], later.invoices[i]);
    case Credit(_, _, _, _, uuid) =>
      var n :| 0 <= n < |b.notes| && b.notes[n].uuid == uuid;
      assert later.notes[n] == b.notes[n];
    case Collect(_, _, _, _, _, uuid) =>
      var p :| 0 <= p < |b.payments| && b.payments[p].uuid == uuid;
      assert later.payments[p].uuid == uuid;
    case Open(customer, _, _) =>
      var k :| 0 <= k < |b.ledger| && IsOpening(b.ledger[k], customer);
      assert later.ledger[k] == b.ledger[k];
    case _ =>
  }

  lemma ServedChangesNothing(b: Ledgers, a: Action)
    requires Sane(a) && Served(b, a)
    ensures Try(b, a) == Done(b)
  {
    match a
    case Issue(sale, _, _, uuid) =>
      var i :| 0 <= i < |b.invoices| && InvoiceServes(b.invoices[i], sale.order, uuid);
      assert InvoiceOf(sale.order)(b.invoices[i]) || InvoiceKeyed(uuid.value)(b.invoices[i]);
    case Credit(_, _, _, _, uuid) =>
      var n :| 0 <= n < |b.notes| && b.notes[n].uuid == uuid;
      assert NoteKeyed(uuid.value)(b.notes[n]);
    case _ =>
  }

  /** A request without a key never finds itself served: it commits something new or is refused. */
  lemma UnidentifiedNeverReplays(b: Ledgers, a: Action)
    requires Sane(a) && !Identified(a)
    ensures Try(b, a) != Done(b)
  {
    var r := Try(b, a);
    if r.Done? { assert |r.value.ledger| == |b.ledger| + 1; }
  }

  /**
   A request that committed once and is sent again, after any number of others, changes nothing
   exactly when it identifies itself. A payment or credit note without a key, and any write-off, is
   booked a second time or refused.
   */
  lemma ReplaysChangeNothing(b: Ledgers, a: Action, actions: seq<Action>)
    requires Sane(a) && AllSane(actions) && Try(b, a).Done?
    ensures var later := Run(Next(b, a), actions); Try(later, a) == Done(later) <==> Identified(a)
  {
    var once := Next(b, a);
    var later := Run(once, actions);
    if Identified(a) {
      CommittedIsServed(b, a);
      RunGrows(once, actions);
      ServedStays(once, later, a);
      ServedChangesNothing(later, a);
    } else {
      UnidentifiedNeverReplays(later, a);
    }
  }

  /**
   A dispatched order can be invoiced exactly when it is worth at least half a rupee: below that the
   total rounds to zero, and the ledger refuses a zero entry.
   */
  lemma InvoiceableExactlyWhen(b: Ledgers, sale: Sale, intraState: bool, on: Day, uuid: Option<Uuid>)
    requires AllPriced(sale.lines) && sale.goodsOut && |sale.lines| > 0
    requires uuid.Some? ==> IndexWhere(InvoiceKeyed(uuid.value), b.invoices) < 0
    requires IndexWhere(InvoiceOf(sale.order), b.invoices) < 0
    requires AllocateNumber(b.series, INVOICE_SERIES, on).Done?
    requires IndexWhere(InvoiceNumbered(AllocateNumber(b.series, INVOICE_SERIES, on).value.number), b.invoices) < 0
    ensures IssueInvoice(b, sale, intraState, on, uuid).Done? <==> TotalsOf(sale.lines).total >= 50
  {
    InvoiceReconciles(sale.lines, intraState);
    LineSums(sale.lines);
  }

  /** What an invoice takes: goods out, something on the order, worth at least half a rupee, and neither the order nor the key used before. */
  predicate Invoiceable(b: Ledgers, sale: Sale, uuid: Option<Uuid>) {
    && sale.goodsOut && |sale.lines| > 0 && TotalsOf(sale.lines).total >= 50
    && forall i :: 0 <= i < |b.invoices| ==> b.invoices[i].order != sale.order && (uuid.Some? ==> b.invoices[i].uuid != uuid)
  }

  lemma IssuesExactlyWhen(b: Ledgers, sale: Sale, intraState: bool, on: Day, uuid: Option<Uuid>)
    requires AllPriced(sale.lines) && AllocateNumber(b.series, INVOICE_SERIES, on).Done?
    requires IndexWhere(InvoiceNumbered(AllocateNumber(b.series, INVOICE_SERIES, on).value.number), b.invoices) < 0
    ensures var r := IssueInvoice(b, sale, intraState, on, uuid); r.Done? && r.value != b <==> Invoiceable(b, sale, uuid)
  {
    var r := IssueInvoice(b, sale, intraState, on, uuid);
    if r.Done? && r.value != b { IssueAddsInvoice(b, sale, intraState, on, uuid); }
    var keyed := uuid.Some? && IndexWhere(InvoiceKeyed(uuid.value), b.invoices) >= 0;
    if !keyed && IndexWhere(InvoiceOf(sale.order), b.invoices) < 0 {
      forall i | 0 <= i < |b.invoices| ensures b.invoices[i].order != sale.order && (uuid.Some? ==> b.invoices[i].uuid != uuid) {
        assert !InvoiceOf(sale.order)(b.invoices[i]) && (uuid.Some? ==> !InvoiceKeyed(uuid.value)(b.invoices[i]));
      }
      if sale.goodsOut && |sale.lines| > 0 { InvoiceableExactlyWhen(b, sale, intraState, on, uuid); }
    } else {
      assert !Invoiceable(b, sale, uuid);
    }
  }

  /** What a note takes: a reason, requests in order against a standing invoice, a new key, and a value that is something and within what is left of the invoice. */
  predicate Creditable(b: Ledgers, i: nat, requests: seq<Request>, reason: string, uuid: Option<Uuid>, worth: int)
    requires i < |b.invoices|
  {
    && reason != "" && |requests| > 0 && b.invoices[i].status == ISSUED && (forall k :: 0 <= k < |requests| ==> InOrder(i, requests[k]))
    && (uuid.Some? ==> forall n :: 0 <= n < |b.notes| ==> b.notes[n].uuid != uuid)
    && 0 < worth <= b.invoices[i].header.total - SumOf((n: Note) => if n.invoice == i then n.header.total else 0, b.notes)
  }

  /** What the requested lines come to: the shares' taxable values and taxes, in whole rupees. */
  function WorthOf(b: Ledgers, i: nat, requests: seq<Request>): int
    requires i < |b.invoices| && Positive(requests)
  {
    var intraState := b.invoices[i].header.gst.igst == 0;
    var lines := CreditLines(i, requests, intraState);
    if lines.Done? then CreditHeader(lines.value, intraState).total else 0
  }

  lemma FreshNoteKey(notes: seq<Note>, uuid: Option<Uuid>)
    ensures (uuid.Some? ==> forall n :: 0 <= n < |notes| ==> notes[n].uuid != uuid) <==> uuid.None? || IndexWhere(NoteKeyed(uuid.value), notes) < 0
  {
    if uuid.Some? && IndexWhere(NoteKeyed(uuid.value), notes) < 0 {
      forall n | 0 <= n < |notes| ensures notes[n].uuid != uuid { assert !NoteKeyed(uuid.value)(notes[n]); }
    }
  }

  lemma NotePostsExactlyWhen(b: Ledgers, i: nat, header: Header, lines: seq<DocumentLine>, on: Day, uuid: Option<Uuid>)
    requires i < |b.invoices| && AllocateNumber(b.series, CREDIT_NOTE_SERIES, on).Done?
    requires IndexWhere(NoteNumbered(AllocateNumber(b.series, CREDIT_NOTE_SERIES, on).value.number), b.notes) < 0
    ensures var r := PostNote(b, i, header, lines, on, uuid); (r.Done? <==> header.total > 0) && (r.Done? ==> r.value != b)
  {
  }

  lemma CreditsExactlyWhen(b: Ledgers, i: nat, requests: seq<Request>, reason: string, on: Day, uuid: Option<Uuid>)
    requires i < |b.invoices| && Positive(requests) && AllocateNumber(b.series, CREDIT_NOTE_SERIES, on).Done?
    requires IndexWhere(NoteNumbered(AllocateNumber(b.series, CREDIT_NOTE_SERIES, on).value.number), b.notes) < 0
    ensures var r := IssueCreditNote(b, i, requests, reason, on, uuid);
            r.Done? && r.value != b <==> Creditable(b, i, requests, reason, uuid, WorthOf(b, i, requests))
  {
    var intraState := b.invoices[i].header.gst.igst == 0;
    var lines := CreditLines(i, requests, intraState);
    CreditedLinesAreShares(i, requests, intraState);
    SumOfAgree(NoteValue(i), (n: Note) => if n.invoice == i then n.header.total else 0, b.notes);
    FreshNoteKey(b.notes, uuid);
    if lines.Done? { NotePostsExactlyWhen(b, i, CreditHeader(lines.value, intraState), lines.value, on, uuid); }
  }
}
