/**
 Billing against the walk, as of any date: because of the cap and the cancellation rule no credit note ever
 spills, and each one resolves to its own invoice as soon as that invoice is in view.
 */
module BooksWalk {
  import opened Outcomes
  import opened Sums
  import opened Querysets
  import opened Pricing
  import opened Documents
  import opened Vocabulary
  import opened LedgerWalk
  import opened WalkLaws
  import opened Receivables
  import opened Books
  import opened BooksLaws

  /** Every row is dated no later than `asOf`: the walk sees the whole ledger. */
  ghost predicate Whole(ledger: seq<Row>, asOf: int) { forall k :: 0 <= k < |ledger| ==> ledger[k].entry.date <= asOf }

  /** Every credit note, mapped to the invoice it is against. */
  function NoteTargets(notes: seq<Note>): (targets: map<int, int>)
    ensures forall id :: id in targets <==> 0 < id <= |notes|
    ensures forall id :: id in targets ==> targets[id] == notes[id - 1].invoice + 1
  {
    if |notes| == 0 then map[] else NoteTargets(notes[..|notes| - 1])[|notes| := notes[|notes| - 1].invoice + 1]
  }

  // ------------------------------------------------------------------ a customer's ledger, row by row

  /** Row `k` is dated early enough for the walk to see it. */
  predicate InView(b: Ledgers, asOf: int, k: nat) { k < |b.ledger| && b.ledger[k].entry.date <= asOf }

  /** An entry of customer `c` sits where its key says, and is explained there. */
  predicate IsRowOf(b: Ledgers, c: int, e: Entry) {
    && 0 < e.pk <= |b.ledger| && b.ledger[e.pk - 1].entry == e && b.ledger[e.pk - 1].customerId == c
    && Explained(b, e.pk - 1)
  }

  /** `es` is exactly the ledger of customer `c` up to `asOf`, in some order, no row twice. */
  ghost predicate IsLedgerOf(b: Ledgers, c: int, asOf: int, es: seq<Entry>) {
    && (forall e :: e in es ==> IsRowOf(b, c, e) && e.date <= asOf)
    && (forall k :: 0 <= k < |b.ledger| && b.ledger[k].customerId == c && InView(b, asOf, k) ==> b.ledger[k].entry in es)
    && DistinctKeys(es)
  }

  lemma RowIsItsKey(b: Ledgers, r: Row)
    requires Posted(b) && r in b.ledger
    ensures 0 < r.entry.pk <= |b.ledger| && b.ledger[r.entry.pk - 1] == r && Explained(b, r.entry.pk - 1)
  {
    var k :| 0 <= k < |b.ledger| && b.ledger[k] == r;
    assert Explained(b, k);
  }

  lemma RowsAreDistinct(b: Ledgers)
    requires Posted(b)
    ensures Distinct(b.ledger)
  {
    forall i, j | 0 <= i < j < |b.ledger| ensures b.ledger[i] != b.ledger[j] { assert Explained(b, i) && Explained(b, j); }
  }

  /** The rows behind a customer's ledger, in the order the walk reads them. */
  function CustomerRows(ledger: seq<Row>, c: int, asOf: int): seq<Row> { OrderBy(RowByDate, Filter(OfCustomer(c, asOf), ledger)) }

  lemma CustomerRowsAreTheirs(b: Ledgers, c: int, asOf: int)
    requires Posted(b)
    ensures Distinct(CustomerRows(b.ledger, c, asOf))
    ensures forall r :: r in CustomerRows(b.ledger, c, asOf) <==> r in b.ledger && r.customerId == c && r.entry.date <= asOf
  {
    var rows := Filter(OfCustomer(c, asOf), b.ledger);
    FilterMembers(OfCustomer(c, asOf), b.ledger);
    OrderByMembers(RowByDate, rows);
    RowsAreDistinct(b);
    FilterDistinct(OfCustomer(c, asOf), b.ledger);
    OrderByDistinct(RowByDate, rows);
  }

  lemma EntriesAreTheirs(b: Ledgers, c: int, asOf: int, rows: seq<Row>)
    requires Posted(b) && Distinct(rows)
    requires forall r :: r in rows <==> r in b.ledger && r.customerId == c && r.entry.date <= asOf
    ensures IsLedgerOf(b, c, asOf, EntriesOf(rows))
  {
    var es := EntriesOf(rows);
    forall i | 0 <= i < |es| ensures IsRowOf(b, c, es[i]) && es[i].date <= asOf && b.ledger[es[i].pk - 1] == rows[i] {
      assert rows[i] in rows;
      RowIsItsKey(b, rows[i]);
    }
    forall k | 0 <= k < |b.ledger| && b.ledger[k].customerId == c && InView(b, asOf, k) ensures b.ledger[k].entry in es {
      assert b.ledger[k] in rows;
      var i :| 0 <= i < |rows| && rows[i] == b.ledger[k];
      assert es[i] == b.ledger[k].entry;
    }
  }

  lemma CustomerLedgerIsTheirs(b: Ledgers, c: int, asOf: int)
    requires Posted(b)
    ensures IsLedgerOf(b, c, asOf, CustomerLedger(b.ledger, c, asOf))
  {
    CustomerRowsAreTheirs(b, c, asOf);
    EntriesAreTheirs(b, c, asOf, CustomerRows(b.ledger, c, asOf));
  }

  // ------------------------------------------------------------------ what stays in the walk

  predicate OfInvoice(b: Ledgers, e: Entry, status: InvoiceStatus) {
    e.kind == INVOICE && e.sourceId.Some? && 0 < e.sourceId.value <= |b.invoices| && b.invoices[e.sourceId.value - 1].status == status
  }

  predicate OfReversedPayment(b: Ledgers, e: Entry) {
    e.kind == PAYMENT && e.sourceId.Some? && 0 < e.sourceId.value <= |b.payments| && b.payments[e.sourceId.value - 1].reversed
  }

  /** The document behind `e` was cancelled or reversed. */
  predicate Withdrawn(b: Ledgers, e: Entry) { OfInvoice(b, e, CANCELLED) || OfReversedPayment(b, e) }

  /** Where the adjustment that withdrew the document was posted. */
  function OffsetOf(b: Ledgers, e: Entry): Option<nat>
    requires Withdrawn(b, e)
  {
    if e.kind == INVOICE then b.invoices[e.sourceId.value - 1].cancelEntry else b.payments[e.sourceId.value - 1].reversalEntry
  }

  /** An adjustment of an invoice or a payment that exists. */
  predicate Adjusts(b: Ledgers, e: Entry) {
    && e.kind == ADJUSTMENT && e.sourceId.Some? && 0 < e.sourceId.value
    && (e.sourceType == INVOICE || e.sourceType == PAYMENT)
    && e.sourceId.value <= if e.sourceType == INVOICE then |b.invoices| else |b.payments|
  }

  /** Where the document an adjustment withdrew was posted. */
  function PostingOf(b: Ledgers, e: Entry): nat
    requires Adjusts(b, e)
  {
    if e.sourceType == INVOICE then b.invoices[e.sourceId.value - 1].entry else b.payments[e.sourceId.value - 1].entry
  }

  /** What still stands as of a date: everything but the documents and adjustments whose other half is in view too. */
  predicate Stands(b: Ledgers, asOf: int, e: Entry) {
    && (Adjusts(b, e) ==> !InView(b, asOf, PostingOf(b, e)))
    && (Withdrawn(b, e) && OffsetOf(b, e).Some? ==> !InView(b, asOf, OffsetOf(b, e).value))
  }

  /** The two halves of one withdrawal, the adjustment and the entry it withdrew. */
  predicate Halves(b: Ledgers, a: Entry, t: Entry) {
    Adjusts(b, a) && PostingOf(b, a) == t.pk - 1 && Withdrawn(b, t) && OffsetOf(b, t).Some? && OffsetOf(b, t).value == a.pk - 1
  }

  lemma AdjustmentsWithdraw(b: Ledgers, c: int, a: Entry, t: Entry)
    requires Posted(b) && IsRowOf(b, c, a) && IsRowOf(b, c, t) && a.kind == ADJUSTMENT && SameDocument(a, t) && CreatedBySource(t)
    ensures Halves(b, a, t)
  {
    var id := a.sourceId.value - 1;
    if a.sourceType == INVOICE { assert InvoicePosted(b, id); } else { assert PaymentPosted(b, id); }
  }

  /** Only two halves in view together ever leave the walk. */
  lemma AnnulledDoesNotStand(b: Ledgers, c: int, asOf: int, es: seq<Entry>, e: Entry)
    requires Posted(b) && IsLedgerOf(b, c, asOf, es) && e in es && e.pk in Annulled(es, CustomerPolicy)
    ensures !Stands(b, asOf, e) && e.kind != CREDIT_NOTE
  {
    var a, t := AnnulledPair(es, CustomerPolicy, e);
    AdjustmentsWithdraw(b, c, a, t);
  }

  lemma HalvesAreOneDocument(b: Ledgers, c: int, a: Entry, t: Entry)
    requires Posted(b) && IsRowOf(b, c, a) && IsRowOf(b, c, t) && Halves(b, a, t)
    ensures SameDocument(a, t)
  {
    var id := a.sourceId.value - 1;
    if a.sourceType == INVOICE { assert InvoicePosted(b, id); } else { assert PaymentPosted(b, id); }
  }

  /** Two halves in view leave the walk together. */
  lemma HalvesLeave(b: Ledgers, c: int, asOf: int, es: seq<Entry>, a: Entry, t: Entry)
    requires Posted(b) && IsLedgerOf(b, c, asOf, es) && a in es && t in es && Halves(b, a, t)
    ensures a.pk in Annulled(es, CustomerPolicy) && t.pk in Annulled(es, CustomerPolicy)
  {
    HalvesAreOneDocument(b, c, a, t);
    var i :| 0 <= i < |es| && es[i] == a;
    var j :| 0 <= j < |es| && es[j] == t;
    OnlyTwoRows(b, c, asOf, es, j, i);
    assert Annuls(es, CustomerPolicy, i, j);
  }

  /** Of the rows pointing at one document, only its own posting was created by it and only its adjustment offsets it. */
  lemma OnlyTwoRows(b: Ledgers, c: int, asOf: int, es: seq<Entry>, t: int, a: int)
    requires Posted(b) && IsLedgerOf(b, c, asOf, es) && 0 <= t < |es| && 0 <= a < |es|
    requires Withdrawn(b, es[t]) && es[a].kind == ADJUSTMENT && SameDocument(es[a], es[t])
    ensures IsTarget(es, t) && Offsets(es, CustomerPolicy, a, t)
    ensures forall j :: 0 <= j < a ==> !Offsets(es, CustomerPolicy, j, t)
  {
    assert es[t] in es && es[a] in es && IsRowOf(b, c, es[t]) && IsRowOf(b, c, es[a]);
    forall j | t < j < |es| && CreatedBySource(es[j]) ensures !SameDocument(es[j], es[t]) {
      assert es[j] in es && IsRowOf(b, c, es[j]) && es[j].pk != es[t].pk;
    }
    forall j | 0 <= j < a ensures !Offsets(es, CustomerPolicy, j, t) {
      assert es[j] in es && IsRowOf(b, c, es[j]) && es[j].pk != es[a].pk;
    }
  }

  /** A withdrawn entry's adjustment, once in view, is in the customer's ledger. */
  lemma OtherHalfOfDocument(b: Ledgers, c: int, asOf: int, es: seq<Entry>, t: Entry)
    requires Posted(b) && IsLedgerOf(b, c, asOf, es) && t in es && Withdrawn(b, t) && OffsetOf(b, t).Some? && InView(b, asOf, OffsetOf(b, t).value)
    ensures b.ledger[OffsetOf(b, t).value].entry in es && Halves(b, b.ledger[OffsetOf(b, t).value].entry, t)
  {
    var i := t.sourceId.value - 1;
    assert IsRowOf(b, c, t);
    if t.kind == INVOICE { assert InvoicePosted(b, i); } else { assert PaymentPosted(b, i); }
    assert Explained(b, OffsetOf(b, t).value);
  }

  lemma OtherHalfOfAdjustment(b: Ledgers, c: int, asOf: int, es: seq<Entry>, a: Entry)
    requires Posted(b) && IsLedgerOf(b, c, asOf, es) && a in es && Adjusts(b, a) && InView(b, asOf, PostingOf(b, a))
    ensures b.ledger[PostingOf(b, a)].entry in es && Halves(b, a, b.ledger[PostingOf(b, a)].entry)
  {
    assert IsRowOf(b, c, a);
    var id := a.sourceId.value - 1;
    if a.sourceType == INVOICE { assert InvoicePosted(b, id); } else { assert PaymentPosted(b, id); }
    assert Explained(b, PostingOf(b, a));
  }

  lemma NotStandingLeaves(b: Ledgers, c: int, asOf: int, es: seq<Entry>, e: Entry)
    requires Posted(b) && IsLedgerOf(b, c, asOf, es) && e in es && !Stands(b, asOf, e)
    ensures e.pk in Annulled(es, CustomerPolicy)
  {
    if Adjusts(b, e) && InView(b, asOf, PostingOf(b, e)) {
      OtherHalfOfAdjustment(b, c, asOf, es, e);
      HalvesLeave(b, c, asOf, es, e, b.ledger[PostingOf(b, e)].entry);
    } else {
      OtherHalfOfDocument(b, c, asOf, es, e);
      HalvesLeave(b, c, asOf, es, b.ledger[OffsetOf(b, e).value].entry, e);
    }
  }

  /** `live` is exactly what stands of `es`, no entry twice. */
  ghost predicate IsLiveOf(b: Ledgers, c: int, asOf: int, es: seq<Entry>, live: seq<Entry>) {
    && (forall e :: e in live <==> e in es && Stands(b, asOf, e))
    && (forall e :: e in live ==> IsRowOf(b, c, e) && e.date <= asOf)
    && DistinctKeys(live)
  }

  /**
   As of any date, the entries left in the walk are exactly the documents not yet withdrawn by then, the
   credit notes, openings and write-offs, and an adjustment only while the document it withdrew is not in
   view: over a whole ledger no reversal or cancellation is ever read as a new debt.
   */
  lemma LiveIsWhatStands(b: Ledgers, c: int, asOf: int, es: seq<Entry>)
    requires Posted(b) && IsLedgerOf(b, c, asOf, es)
    ensures IsLiveOf(b, c, asOf, es, Live(es, CustomerPolicy))
    ensures Whole(b.ledger, asOf) ==> forall e :: e in es ==> (Stands(b, asOf, e) <==> e.kind != ADJUSTMENT && !Withdrawn(b, e))
  {
    var gone := Annulled(es, CustomerPolicy);
    var keep := (e: Entry) => e.pk !in gone;
    FilterMembers(keep, es);
    forall e | e in es ensures e.pk !in gone <==> Stands(b, asOf, e) {
      if e.pk in gone { AnnulledDoesNotStand(b, c, asOf, es, e); }
      if !Stands(b, asOf, e) { NotStandingLeaves(b, c, asOf, es, e); }
    }
    FilterKeepsKeys(keep, es);
    if Whole(b.ledger, asOf) {
      forall e | e in es ensures Stands(b, asOf, e) <==> e.kind != ADJUSTMENT && !Withdrawn(b, e) { WholeStands(b, c, asOf, e); }
    }
  }

  /** With the whole ledger in view, both halves of every withdrawal are. */
  lemma WholeStands(b: Ledgers, c: int, asOf: int, e: Entry)
    requires Posted(b) && Whole(b.ledger, asOf) && IsRowOf(b, c, e)
    ensures Stands(b, asOf, e) <==> e.kind != ADJUSTMENT && !Withdrawn(b, e)
  {
    if e.kind == ADJUSTMENT {
      if e.sourceType == INVOICE { assert InvoicePosted(b, e.sourceId.value - 1); } else { assert PaymentPosted(b, e.sourceId.value - 1); }
    }
    if Withdrawn(b, e) {
      if e.kind == INVOICE { assert InvoicePosted(b, e.sourceId.value - 1); } else { assert PaymentPosted(b, e.sourceId.value - 1); }
    }
  }

  // ------------------------------------------------------------------ every note finds its own invoice

  predicate OfNote(b: Ledgers, e: Entry) {
    e.kind == CREDIT_NOTE && e.sourceId.Some? && 0 < e.sourceId.value <= |b.notes|
  }

  /** The row the invoice of a note posted. */
  function InvoiceRowOf(b: Ledgers, e: Entry): nat
    requires OfNote(b, e) && b.notes[e.sourceId.value - 1].invoice < |b.invoices|
  {
    b.invoices[b.notes[e.sourceId.value - 1].invoice].entry
  }

  /** A live note is of an uncancelled invoice; once that invoice's row is in view it is a live debit of the same customer. */
  lemma InvoiceOfNote(b: Ledgers, c: int, asOf: int, es: seq<Entry>, live: seq<Entry>, e: Entry)
    requires Posted(b) && IsLedgerOf(b, c, asOf, es) && IsLiveOf(b, c, asOf, es, live) && e in live && e.kind == CREDIT_NOTE
    ensures OfNote(b, e) && b.notes[e.sourceId.value - 1].invoice < |b.invoices| && InvoiceRowOf(b, e) < |b.ledger|
    ensures
      var d := b.ledger[InvoiceRowOf(b, e)].entry;
      && d.amount > 0 && d.kind == INVOICE && d.sourceId == Some(b.notes[e.sourceId.value - 1].invoice + 1)
      && d.pk == InvoiceRowOf(b, e) + 1
      && (InView(b, asOf, InvoiceRowOf(b, e)) ==> d in live)
  {
    assert IsRowOf(b, c, e);
    InvoiceOfRow(b, c, e);
    var d := b.ledger[InvoiceRowOf(b, e)].entry;
    if InView(b, asOf, InvoiceRowOf(b, e)) { assert d in es && OfInvoice(b, d, ISSUED) && Stands(b, asOf, d); }
  }

  lemma InvoiceOfRow(b: Ledgers, c: int, e: Entry)
    requires Posted(b) && IsRowOf(b, c, e) && e.kind == CREDIT_NOTE
    ensures OfNote(b, e) && b.notes[e.sourceId.value - 1].invoice < |b.invoices| && InvoiceRowOf(b, e) < |b.ledger|
    ensures
      var (i, row) := (b.notes[e.sourceId.value - 1].invoice, b.ledger[InvoiceRowOf(b, e)]);
      && b.invoices[i].status == ISSUED && row.customerId == c && row.entry.pk == InvoiceRowOf(b, e) + 1
      && row.entry.amount > 0 && row.entry.kind == INVOICE && row.entry.sourceId == Some(i + 1)
  {
    var n := e.sourceId.value - 1;
    assert NotePosted(b, n);
    assert InvoicePosted(b, b.notes[n].invoice) && Explained(b, InvoiceRowOf(b, e));
  }

  /** The one row that names an invoice as its source is the row the invoice posted. */
  lemma OneInvoiceEntry(b: Ledgers, c: int, e: Entry, i: nat)
    requires IsRowOf(b, c, e) && e.kind == INVOICE && i < |b.invoices| && e.sourceId == Some(i + 1)
    ensures e.pk == b.invoices[i].entry + 1
  {
  }

  /** A debit that names an invoice is found by it. */
  lemma DebitIsFound(ds: seq<Entry>, d: Entry, id: int)
    requires d in ds && d.kind == INVOICE && d.sourceId == Some(id)
    ensures var t := DebitFor(ds, CustomerPolicy, id); t >= 0 && ds[t].kind == INVOICE && ds[t].sourceId == Some(id)
  {
    var j :| 0 <= j < |ds| && ds[j] == d;
    assert DebitFor(ds, CustomerPolicy, id) >= j;
  }

  /** A note some entry names is in the target map, and so is looked up by its invoice. */
  lemma TargetIsTheLookup(es: seq<Entry>, e: Entry, notes: seq<Note>, ds: seq<Entry>)
    requires e in es && e.kind == CREDIT_NOTE && e.sourceId.Some? && 0 < e.sourceId.value <= |notes|
    ensures TargetOf(e, CreditNoteTargets(es, NoteTargets(notes)), ds, CustomerPolicy)
            == DebitFor(ds, CustomerPolicy, notes[e.sourceId.value - 1].invoice + 1)
  {
    var k :| 0 <= k < |es| && es[k] == e;
    assert NamesNote(es, e.sourceId.value);
  }

  predicate IsDebitOf(d: Entry, i: nat) { d.kind == INVOICE && d.sourceId == Some(i + 1) }

  /** Looking a live note's invoice up among the debits finds it exactly when its row is in view. */
  lemma LookupFinds(b: Ledgers, c: int, asOf: int, es: seq<Entry>, live: seq<Entry>, e: Entry)
    requires Posted(b) && IsLedgerOf(b, c, asOf, es) && IsLiveOf(b, c, asOf, es, live) && e in live && e.kind == CREDIT_NOTE
    ensures OfNote(b, e) && b.notes[e.sourceId.value - 1].invoice < |b.invoices|
    ensures ResolvesTo(b, asOf, e, Debits(live), DebitFor(Debits(live), CustomerPolicy, b.notes[e.sourceId.value - 1].invoice + 1))
  {
    InvoiceOfNote(b, c, asOf, es, live, e);
    InvoiceIsADebit(b, c, asOf, es, live, b.notes[e.sourceId.value - 1].invoice, InvoiceRowOf(b, e));
  }

  /** Note `e` resolves to position `t` of the debits: to its invoice's when that is in view, and to none otherwise. */
  predicate ResolvesTo(b: Ledgers, asOf: int, e: Entry, ds: seq<Entry>, t: int) {
    && OfNote(b, e) && b.notes[e.sourceId.value - 1].invoice < |b.invoices|
    && t < |ds| && (t >= 0 <==> InView(b, asOf, InvoiceRowOf(b, e)))
    && (t >= 0 ==> IsDebitOf(ds[t], b.notes[e.sourceId.value - 1].invoice))
  }

  /** The debit a note's invoice posted, when it is in view; and no debit at all, when it is not. */
  lemma NoteResolves(b: Ledgers, c: int, asOf: int, es: seq<Entry>, live: seq<Entry>, e: Entry)
    requires Posted(b) && IsLedgerOf(b, c, asOf, es) && IsLiveOf(b, c, asOf, es, live) && e in live && e.kind == CREDIT_NOTE
    ensures ResolvesTo(b, asOf, e, Debits(live), TargetOf(e, CreditNoteTargets(es, NoteTargets(b.notes)), Debits(live), CustomerPolicy))
  {
    LookupFinds(b, c, asOf, es, live, e);
    TargetIsTheLookup(es, e, b.notes, Debits(live));
  }

  /** Looking an invoice up among the live debits finds it exactly when its row is in view. */
  lemma InvoiceIsADebit(b: Ledgers, c: int, asOf: int, es: seq<Entry>, live: seq<Entry>, i: nat, k: nat)
    requires IsLiveOf(b, c, asOf, es, live) && i < |b.invoices| && k == b.invoices[i].entry < |b.ledger|
    requires var d := b.ledger[k].entry; d.amount > 0 && d.kind == INVOICE && d.sourceId == Some(i + 1) && (InView(b, asOf, k) ==> d in live)
    ensures var t := DebitFor(Debits(live), CustomerPolicy, i + 1);
            (t >= 0 <==> InView(b, asOf, k)) && (t >= 0 ==> Debits(live)[t].kind == INVOICE && Debits(live)[t].sourceId == Some(i + 1))
  {
    var ds := Debits(live);
    var t := DebitFor(ds, CustomerPolicy, i + 1);
    DebitsOfLive(b, c, asOf, es, live);
    if InView(b, asOf, k) {
      FilterMembers(IsDebit, live);
      DebitIsFound(ds, b.ledger[k].entry, i + 1);
    }
    if t >= 0 { OneInvoiceEntry(b, c, ds[t], i); }
  }

  /** What an entry credits against an invoice, read off the note behind it. */
  function NoteEntryValue(notes: seq<Note>, invoice: nat): Entry -> int {
    (e: Entry) => Credits(notes, invoice, e)
  }

  lemma DebitsOfLive(b: Ledgers, c: int, asOf: int, es: seq<Entry>, live: seq<Entry>)
    requires IsLiveOf(b, c, asOf, es, live)
    ensures forall i :: 0 <= i < |Debits(live)| ==>
              Debits(live)[i] in live && IsRowOf(b, c, Debits(live)[i]) && Debits(live)[i].date <= asOf && Debits(live)[i].amount > 0
    ensures DistinctKeys(Debits(live))
  {
    FilterMembers(IsDebit, live);
    FilterKeepsKeys(IsDebit, live);
    forall i | 0 <= i < |Debits(live)|
      ensures Debits(live)[i] in live && IsRowOf(b, c, Debits(live)[i]) && Debits(live)[i].date <= asOf && Debits(live)[i].amount > 0
    {
      assert Debits(live)[i] in Debits(live);
    }
  }

  /** A note resolves to debit `i` exactly when it is against the invoice that posted it. */
  lemma ResolvesExactlyTo(b: Ledgers, c: int, asOf: int, es: seq<Entry>, live: seq<Entry>, e: Entry, i: int)
    requires Posted(b) && IsLedgerOf(b, c, asOf, es) && IsLiveOf(b, c, asOf, es, live) && e in live && e.kind == CREDIT_NOTE && 0 <= i < |Debits(live)|
    ensures
      var (ds, targets) := (Debits(live), CreditNoteTargets(es, NoteTargets(b.notes)));
      && OfNote(b, e)
      && (TargetOf(e, targets, ds, CustomerPolicy) == i
          <==> ds[i].kind == INVOICE && ds[i].sourceId == Some(b.notes[e.sourceId.value - 1].invoice + 1))
  {
    NoteResolves(b, c, asOf, es, live, e);
    DebitsOfLive(b, c, asOf, es, live);
    var ds, invoice := Debits(live), b.notes[e.sourceId.value - 1].invoice;
    var t := TargetOf(e, CreditNoteTargets(es, NoteTargets(b.notes)), ds, CustomerPolicy);
    if ds[i].kind == INVOICE && ds[i].sourceId == Some(invoice + 1) {
      OneInvoiceEntry(b, c, ds[i], invoice);
      assert InView(b, asOf, InvoiceRowOf(b, e));
      OneInvoiceEntry(b, c, ds[t], invoice);
      assert ds[i].pk == ds[t].pk;
    }
  }

  /** What a note is worth while its invoice is not in view yet. */
  function EarlyCredit(b: Ledgers, asOf: int, e: Entry): int {
    if OfNote(b, e) && b.notes[e.sourceId.value - 1].invoice < |b.invoices| && !InView(b, asOf, InvoiceRowOf(b, e)) then -e.amount else 0
  }

  predicate OfSomeInvoice(b: Ledgers, e: Entry) { e.kind == INVOICE && e.sourceId.Some? && 0 < e.sourceId.value <= |b.invoices| }

  /** What one live entry credits against debit `i`, in terms of the notes. */
  lemma OneNoteCredits(b: Ledgers, c: int, asOf: int, es: seq<Entry>, live: seq<Entry>, e: Entry, i: nat)
    requires Posted(b) && IsLedgerOf(b, c, asOf, es) && IsLiveOf(b, c, asOf, es, live) && e in live && i < |Debits(live)|
    ensures
      var (ds, targets) := (Debits(live), CreditNoteTargets(es, NoteTargets(b.notes)));
      CreditTerm(targets, ds, CustomerPolicy, i)(e)
      == if OfSomeInvoice(b, ds[i]) then NoteEntryValue(b.notes, ds[i].sourceId.value - 1)(e) else 0
  {
    if e.kind == CREDIT_NOTE {
      NotesAreNegative(b, c, asOf, es, live, e);
      ResolvesExactlyTo(b, c, asOf, es, live, e, i);
      InvoiceDebits(b, c, asOf, es, live, i);
      TermIsTheNote(e, CreditNoteTargets(es, NoteTargets(b.notes)), Debits(live), b, i);
    }
  }

  lemma NotesAreNegative(b: Ledgers, c: int, asOf: int, es: seq<Entry>, live: seq<Entry>, e: Entry)
    requires IsLiveOf(b, c, asOf, es, live) && e in live && e.kind == CREDIT_NOTE
    ensures e.amount < 0
  {
    assert IsRowOf(b, c, e);
  }

  /** And what it leaves unresolved. */
  lemma OneNoteIsEarly(b: Ledgers, c: int, asOf: int, es: seq<Entry>, live: seq<Entry>, e: Entry)
    requires Posted(b) && IsLedgerOf(b, c, asOf, es) && IsLiveOf(b, c, asOf, es, live) && e in live
    ensures CreditTerm(CreditNoteTargets(es, NoteTargets(b.notes)), Debits(live), CustomerPolicy, -1)(e) == EarlyCredit(b, asOf, e)
  {
    if e.kind == CREDIT_NOTE {
      NotesAreNegative(b, c, asOf, es, live, e);
      NoteResolves(b, c, asOf, es, live, e);
    }
  }

  /** A negative note's term against debit `i`, whether or not it resolves there. */
  lemma TermIsTheNote(e: Entry, targets: map<int, int>, ds: seq<Entry>, b: Ledgers, i: nat)
    requires e.kind == CREDIT_NOTE && e.amount < 0 && OfNote(b, e) && i < |ds|
    requires ds[i].kind == INVOICE <==> OfSomeInvoice(b, ds[i])
    requires TargetOf(e, targets, ds, CustomerPolicy) == i <==> ds[i].kind == INVOICE && ds[i].sourceId == Some(b.notes[e.sourceId.value - 1].invoice + 1)
    ensures CreditTerm(targets, ds, CustomerPolicy, i)(e)
            == if OfSomeInvoice(b, ds[i]) then NoteEntryValue(b.notes, ds[i].sourceId.value - 1)(e) else 0
  {
  }

  lemma InvoiceDebits(b: Ledgers, c: int, asOf: int, es: seq<Entry>, live: seq<Entry>, i: nat)
    requires IsLiveOf(b, c, asOf, es, live) && i < |Debits(live)|
    ensures Debits(live)[i].kind == INVOICE <==> OfSomeInvoice(b, Debits(live)[i])
  {
    DebitsOfLive(b, c, asOf, es, live);
  }

  // ------------------------------------------------------------------ sums over the live ledger

  lemma {:induction false} SumOverEntries(f: Entry -> int, g: Row -> int, rows: seq<Row>)
    requires forall i :: 0 <= i < |rows| ==> f(rows[i].entry) == g(rows[i])
    ensures SumOf(f, EntriesOf(rows)) == SumOf(g, rows)
  {
    if |rows| != 0 {
      var front := rows[..|rows| - 1];
      forall i | 0 <= i < |front| ensures f(front[i].entry) == g(front[i]) { assert front[i] == rows[i]; }
      SumOverEntries(f, g, front);
      assert EntriesOf(rows)[..|rows| - 1] == EntriesOf(front);
    }
  }

  /** A row's worth to a sum over the walk: nothing unless it is the customer's and in view. */
  function Seen(c: int, asOf: int, f: Entry -> int): Row -> int {
    (r: Row) => if r.customerId == c && r.entry.date <= asOf then f(r.entry) else 0
  }

  /** A sum over a customer's ledger in the walk's order is a sum over the table. */
  lemma SumOverLedger(b: Ledgers, c: int, asOf: int, f: Entry -> int)
    ensures SumOf(f, CustomerLedger(b.ledger, c, asOf)) == SumOf(Seen(c, asOf, f), b.ledger)
  {
    var rows, g := Filter(OfCustomer(c, asOf), b.ledger), Seen(c, asOf, f);
    FilterMembers(OfCustomer(c, asOf), b.ledger);
    OrderByMembers(RowByDate, rows);
    forall i | 0 <= i < |OrderBy(RowByDate, rows)| ensures f(OrderBy(RowByDate, rows)[i].entry) == g(OrderBy(RowByDate, rows)[i]) {
      assert OrderBy(RowByDate, rows)[i] in rows;
    }
    SumOverEntries(f, g, OrderBy(RowByDate, rows));
    SumOfOrderBy(g, RowByDate, rows);
    SumOfFilter(g, OfCustomer(c, asOf), b.ledger);
  }

  /** And over what stays in the walk, of whatever is worth nothing once it has left. */
  lemma SumOverLive(b: Ledgers, c: int, asOf: int, es: seq<Entry>, f: Entry -> int, g: Entry -> int)
    requires Posted(b) && es == CustomerLedger(b.ledger, c, asOf)
    requires IsLedgerOf(b, c, asOf, es) && IsLiveOf(b, c, asOf, es, Live(es, CustomerPolicy))
    requires forall e :: e in es ==> g(e) == if Stands(b, asOf, e) then f(e) else 0
    ensures SumOf(f, Live(es, CustomerPolicy)) == SumOf(Seen(c, asOf, g), b.ledger)
  {
    var gone := Annulled(es, CustomerPolicy);
    var keep := (e: Entry) => e.pk !in gone;
    var live := Live(es, CustomerPolicy);
    FilterMembers(keep, es);
    forall i | 0 <= i < |live| ensures f(live[i]) == g(live[i]) { assert live[i] in live; }
    SumOfAgree(f, g, live);
    forall i | 0 <= i < |es| && !keep(es[i]) ensures g(es[i]) == 0 {
      assert es[i] in es;
      AnnulledDoesNotStand(b, c, asOf, es, es[i]);
    }
    SumOfFilter(g, keep, es);
    SumOverLedger(b, c, asOf, g);
  }

  /** Credit notes never leave the walk. */
  lemma NotesStand(b: Ledgers, asOf: int, e: Entry)
    requires e.kind == CREDIT_NOTE
    ensures Stands(b, asOf, e)
  {
  }

  /** What the notes dated by `asOf` credit against an invoice. */
  function NoteBy(notes: seq<Note>, invoice: nat, asOf: int): Row -> int {
    (r: Row) => if r.entry.date <= asOf then Credits(notes, invoice, r.entry) else 0
  }

  function CreditedBy(b: Ledgers, invoice: nat, asOf: int): int { SumOf(NoteBy(b.notes, invoice, asOf), b.ledger) }

  /** Never more than was credited in all, and exactly that once every row is in view. */
  lemma CreditedByIsCapped(b: Ledgers, i: nat, asOf: int)
    requires Posted(b) && Capped(b) && i < |b.invoices|
    ensures CreditedBy(b, i, asOf) <= CreditedTotal(b.notes, i) <= b.invoices[i].header.total
    ensures Whole(b.ledger, asOf) ==> CreditedBy(b, i, asOf) == CreditedTotal(b.notes, i)
  {
    var f, g := NoteBy(b.notes, i, asOf), NoteRowValue(b.notes, i);
    var later := (r: Row) => g(r) - f(r);
    forall k | 0 <= k < |b.ledger| ensures later(b.ledger[k]) >= 0 { assert Explained(b, k); }
    SumOfPlus(f, later, g, b.ledger);
    SumOfNonNegative(later, b.ledger);
    if Whole(b.ledger, asOf) { SumOfAgree(f, g, b.ledger); }
  }

  lemma ForeignRow(b: Ledgers, c: int, i: nat, k: nat)
    requires Posted(b) && i < |b.invoices| && b.invoices[i].customer == c && k < |b.ledger| && b.ledger[k].customerId != c
    ensures NoteRowValue(b.notes, i)(b.ledger[k]) == 0
  {
    assert Explained(b, k);
    if b.ledger[k].entry.kind == CREDIT_NOTE { assert NotePosted(b, b.ledger[k].entry.sourceId.value - 1); }
  }

  /** The notes against an invoice are all in its customer's ledger, and none of them leaves the walk. */
  lemma NotesInTheWalk(b: Ledgers, c: int, asOf: int, es: seq<Entry>, i: nat)
    requires Posted(b) && es == CustomerLedger(b.ledger, c, asOf)
    requires IsLedgerOf(b, c, asOf, es) && IsLiveOf(b, c, asOf, es, Live(es, CustomerPolicy))
    requires i < |b.invoices| && b.invoices[i].customer == c
    ensures SumOf(NoteEntryValue(b.notes, i), Live(es, CustomerPolicy)) == CreditedBy(b, i, asOf)
  {
    var f := NoteEntryValue(b.notes, i);
    forall e | e in es ensures f(e) == if Stands(b, asOf, e) then f(e) else 0 {
      if e.kind == CREDIT_NOTE { NotesStand(b, asOf, e); }
    }
    SumOverLive(b, c, asOf, es, f, f);
    forall k | 0 <= k < |b.ledger| ensures Seen(c, asOf, f)(b.ledger[k]) == NoteBy(b.notes, i, asOf)(b.ledger[k]) {
      if b.ledger[k].customerId != c { ForeignRow(b, c, i, k); }
    }
    SumOfAgree(Seen(c, asOf, f), NoteBy(b.notes, i, asOf), b.ledger);
  }

  /** What a live debit is worth before anything settles it: its amount less what the notes dated by then credited. */
  function WorthBy(b: Ledgers, asOf: int, d: Entry): int {
    if OfSomeInvoice(b, d) then d.amount - CreditedBy(b, d.sourceId.value - 1, asOf) else d.amount
  }

  /** The same with the whole ledger in view. */
  function WorthOf(b: Ledgers, d: Entry): int {
    if OfInvoice(b, d, ISSUED) then d.amount - CreditedTotal(b.notes, d.sourceId.value - 1) else d.amount
  }

  /** The notes of customer `c` dated by `asOf` whose invoice is dated later. */
  function EarlyCredits(b: Ledgers, c: int, asOf: int): int {
    SumOf(Seen(c, asOf, (e: Entry) => EarlyCredit(b, asOf, e)), b.ledger)
  }

  /** The credits of one debit are its invoice's notes, or none when it is not an invoice. */
  lemma CreditsAreTheNotes(b: Ledgers, c: int, asOf: int, es: seq<Entry>, live: seq<Entry>, i: nat)
    requires Posted(b) && IsLedgerOf(b, c, asOf, es) && IsLiveOf(b, c, asOf, es, live) && i < |Debits(live)|
    ensures
      var (ds, targets) := (Debits(live), CreditNoteTargets(es, NoteTargets(b.notes)));
      CreditTo(live, targets, ds, CustomerPolicy, i)
      == if OfSomeInvoice(b, ds[i]) then SumOf(NoteEntryValue(b.notes, ds[i].sourceId.value - 1), live) else 0
  {
    var ds := Debits(live);
    var term := CreditTerm(CreditNoteTargets(es, NoteTargets(b.notes)), ds, CustomerPolicy, i);
    var g := if OfSomeInvoice(b, ds[i]) then NoteEntryValue(b.notes, ds[i].sourceId.value - 1) else (e: Entry) => 0;
    forall k | 0 <= k < |live| ensures term(live[k]) == g(live[k]) { OneNoteCredits(b, c, asOf, es, live, live[k], i); }
    SumOfAgree(term, g, live);
    SumOfZero(live);
  }

  /** So it is worth what those dated by then leave of it, and that is never negative. */
  lemma WorthAfterNotes(b: Ledgers, c: int, asOf: int, es: seq<Entry>, d: Entry)
    requires Posted(b) && Capped(b) && es == CustomerLedger(b.ledger, c, asOf)
    requires IsLedgerOf(b, c, asOf, es) && IsLiveOf(b, c, asOf, es, Live(es, CustomerPolicy)) && IsRowOf(b, c, d) && d.amount > 0
    ensures
      0 <= d.amount - (if OfSomeInvoice(b, d) then SumOf(NoteEntryValue(b.notes, d.sourceId.value - 1), Live(es, CustomerPolicy)) else 0)
      == WorthBy(b, asOf, d)
  {
    if OfSomeInvoice(b, d) {
      NotesInTheWalk(b, c, asOf, es, d.sourceId.value - 1);
      CreditedByIsCapped(b, d.sourceId.value - 1, asOf);
    }
  }

  lemma CreditsOfDebit(b: Ledgers, c: int, asOf: int, es: seq<Entry>, i: nat)
    requires Posted(b) && Capped(b) && es == CustomerLedger(b.ledger, c, asOf)
    requires IsLedgerOf(b, c, asOf, es) && IsLiveOf(b, c, asOf, es, Live(es, CustomerPolicy)) && i < |Debits(Live(es, CustomerPolicy))|
    ensures
      var live := Live(es, CustomerPolicy);
      var (ds, targets) := (Debits(live), CreditNoteTargets(es, NoteTargets(b.notes)));
      0 <= ds[i].amount - CreditTo(live, targets, ds, CustomerPolicy, i) == WorthBy(b, asOf, ds[i])
  {
    var live := Live(es, CustomerPolicy);
    var d := Debits(live)[i];
    assert IsRowOf(b, c, d) && d.amount > 0 by { DebitsOfLive(b, c, asOf, es, live); }
    WorthAfterNotes(b, c, asOf, es, d);
    CreditsAreTheNotes(b, c, asOf, es, live, i);
  }

  /** What resolves to no debit is exactly the early notes. */
  lemma UnresolvedAreEarly(b: Ledgers, c: int, asOf: int, es: seq<Entry>)
    requires Posted(b) && es == CustomerLedger(b.ledger, c, asOf)
    requires IsLedgerOf(b, c, asOf, es) && IsLiveOf(b, c, asOf, es, Live(es, CustomerPolicy))
    ensures
      var live := Live(es, CustomerPolicy);
      CreditTo(live, CreditNoteTargets(es, NoteTargets(b.notes)), Debits(live), CustomerPolicy, -1) == EarlyCredits(b, c, asOf)
  {
    var live := Live(es, CustomerPolicy);
    var term := CreditTerm(CreditNoteTargets(es, NoteTargets(b.notes)), Debits(live), CustomerPolicy, -1);
    var early := (e: Entry) => EarlyCredit(b, asOf, e);
    forall k | 0 <= k < |live| ensures term(live[k]) == early(live[k]) { OneNoteIsEarly(b, c, asOf, es, live, live[k]); }
    SumOfAgree(term, early, live);
    SumOverLive(b, c, asOf, es, early, early);
  }

  // ------------------------------------------------------------------ the theorem

  /**
   As of any date the reduce step never spills: each live invoice enters settlement at its total less what
   the notes dated by then credited against it, every other debit at its amount. What stays unresolved is
   exactly the notes dated by then whose invoice is dated later.
   */
  lemma WalkAsOf(b: Ledgers, c: int, asOf: int)
    requires Sound(b)
    ensures
      var es := CustomerLedger(b.ledger, c, asOf);
      var live := Live(es, CustomerPolicy);
      var (ds, targets) := (Debits(live), CreditNoteTargets(es, NoteTargets(b.notes)));
      && (forall i :: 0 <= i < |ds| ==> Reduced(live, targets, CustomerPolicy, |live|)[i] == WorthBy(b, asOf, ds[i]))
      && Total(Spilled(live, targets, CustomerPolicy, |live|)) == 0
      && CreditTo(live, targets, ds, CustomerPolicy, -1) == EarlyCredits(b, c, asOf)
      && Pool(live, targets, CustomerPolicy) == SumOf(SettlingTerm(CustomerPolicy), live) + EarlyCredits(b, c, asOf)
  {
    var es := CustomerLedger(b.ledger, c, asOf);
    var live := Live(es, CustomerPolicy);
    var ds, targets := Debits(live), CreditNoteTargets(es, NoteTargets(b.notes));
    CustomerLedgerIsTheirs(b, c, asOf);
    LiveIsWhatStands(b, c, asOf, es);
    assert live[..|live|] == live;
    forall i | 0 <= i < |ds|
      ensures 0 <= ds[i].amount - CreditTo(live, targets, ds, CustomerPolicy, i) == WorthBy(b, asOf, ds[i])
    {
      CreditsOfDebit(b, c, asOf, es, i);
    }
    UnresolvedAreEarly(b, c, asOf, es);
    NothingSpills(live, targets);
  }

  /**
   Over a customer's whole ledger nothing is unresolved either: each live invoice enters settlement at
   exactly its total less what was credited against it, and the pool is the payments and write-offs alone.
   */
  lemma WalkNeverSpills(b: Ledgers, c: int, asOf: int)
    requires Sound(b) && Whole(b.ledger, asOf)
    ensures
      var es := CustomerLedger(b.ledger, c, asOf);
      var live := Live(es, CustomerPolicy);
      var (ds, targets) := (Debits(live), CreditNoteTargets(es, NoteTargets(b.notes)));
      && (forall i :: 0 <= i < |ds| ==> Reduced(live, targets, CustomerPolicy, |live|)[i] == WorthOf(b, ds[i]))
      && Total(Spilled(live, targets, CustomerPolicy, |live|)) == 0
      && Pool(live, targets, CustomerPolicy) == SumOf(SettlingTerm(CustomerPolicy), live)
  {
    var es := CustomerLedger(b.ledger, c, asOf);
    var live := Live(es, CustomerPolicy);
    var ds := Debits(live);
    WalkAsOf(b, c, asOf);
    CustomerLedgerIsTheirs(b, c, asOf);
    LiveIsWhatStands(b, c, asOf, es);
    DebitsOfLive(b, c, asOf, es, live);
    forall i | 0 <= i < |ds| ensures WorthBy(b, asOf, ds[i]) == WorthOf(b, ds[i]) {
      assert ds[i] in live;
      WorthAgrees(b, c, asOf, ds[i]);
    }
    NothingIsEarly(b, c, asOf);
  }

  lemma WorthAgrees(b: Ledgers, c: int, asOf: int, d: Entry)
    requires Posted(b) && Capped(b) && Whole(b.ledger, asOf) && IsRowOf(b, c, d) && Stands(b, asOf, d)
    ensures WorthBy(b, asOf, d) == WorthOf(b, d)
  {
    WholeStands(b, c, asOf, d);
    if OfSomeInvoice(b, d) { CreditedByIsCapped(b, d.sourceId.value - 1, asOf); }
  }

  lemma NothingIsEarly(b: Ledgers, c: int, asOf: int)
    requires Posted(b) && Whole(b.ledger, asOf)
    ensures EarlyCredits(b, c, asOf) == 0
  {
    var early := Seen(c, asOf, (e: Entry) => EarlyCredit(b, asOf, e));
    forall k | 0 <= k < |b.ledger| ensures early(b.ledger[k]) == 0 {
      var e := b.ledger[k].entry;
      if OfNote(b, e) && b.notes[e.sourceId.value - 1].invoice < |b.invoices| { assert InvoicePosted(b, b.notes[e.sourceId.value - 1].invoice); }
    }
    SumOfNothing(early, b.ledger);
  }

  lemma {:induction false} SumOfNothing(f: Row -> int, rows: seq<Row>)
    requires forall k :: 0 <= k < |rows| ==> f(rows[k]) == 0
    ensures SumOf(f, rows) == 0
  {
    if |rows| != 0 { SumOfNothing(f, rows[..|rows| - 1]); }
  }

  lemma NothingSpills(live: seq<Entry>, targets: map<int, int>)
    requires forall i :: 0 <= i < |Debits(live)| ==> CreditTo(live, targets, Debits(live), CustomerPolicy, i) <= Debits(live)[i].amount
    ensures Total(Spilled(live, targets, CustomerPolicy, |live|)) == 0
    ensures forall i :: 0 <= i < |Debits(live)| ==>
              Reduced(live, targets, CustomerPolicy, |live|)[i] == Debits(live)[i].amount - CreditTo(live, targets, Debits(live), CustomerPolicy, i)
  {
    assert live[..|live|] == live;
    AllZero(Spilled(live, targets, CustomerPolicy, |live|));
  }

  // ------------------------------------------------------------------ crediting an invoice in full

  /** The invoice still holds the figures its order's lines gave it. */
  predicate Documented(invoice: Invoice, lines: seq<OrderLine>) {
    && AllPriced(lines) && |lines| > 0
    && invoice.header == InvoiceHeader(lines, invoice.intraState) && invoice.lines == InvoiceLines(lines, invoice.intraState)
  }

  /** Invoice `i` has a live debit as of a date, and it enters settlement with nothing left on it. */
  ghost predicate EntersAtNothing(b: Ledgers, c: int, asOf: int, i: nat) {
    var es := CustomerLedger(b.ledger, c, asOf);
    var live := Live(es, CustomerPolicy);
    var r := Reduced(live, CreditNoteTargets(es, NoteTargets(b.notes)), CustomerPolicy, |live|);
    && (exists k :: 0 <= k < |r| && IsDebitOf(Debits(live)[k], i))
    && (forall k :: 0 <= k < |r| && IsDebitOf(Debits(live)[k], i) ==> r[k] == 0)
  }

  /** What settles a customer's debits oldest first, as of a date. */
  function PoolOf(b: Ledgers, c: int, asOf: int): int {
    var es := CustomerLedger(b.ledger, c, asOf);
    Pool(Live(es, CustomerPolicy), CreditNoteTargets(es, NoteTargets(b.notes)), CustomerPolicy)
  }

  /** An uncancelled invoice in view has a live debit. */
  lemma InvoiceHasADebit(b: Ledgers, i: nat, asOf: int, es: seq<Entry>, live: seq<Entry>)
    requires Posted(b) && i < |b.invoices| && b.invoices[i].status == ISSUED && InView(b, asOf, b.invoices[i].entry)
    requires IsLedgerOf(b, b.invoices[i].customer, asOf, es) && IsLiveOf(b, b.invoices[i].customer, asOf, es, live)
    ensures exists k :: 0 <= k < |Debits(live)| && IsDebitOf(Debits(live)[k], i)
  {
    assert InvoicePosted(b, i) && Explained(b, b.invoices[i].entry);
    var d := b.ledger[b.invoices[i].entry].entry;
    assert d in es && Stands(b, asOf, d);
    FilterMembers(IsDebit, live);
    var k :| 0 <= k < |Debits(live)| && Debits(live)[k] == d;
    assert IsDebitOf(Debits(live)[k], i);
  }

  lemma DebitIsSpent(b: Ledgers, c: int, i: nat, asOf: int, d: Entry)
    requires i < |b.invoices| && CreditedBy(b, i, asOf) == b.invoices[i].header.total && IsRowOf(b, c, d) && IsDebitOf(d, i)
    ensures WorthBy(b, asOf, d) == 0
  {
  }

  lemma CreditedInFullEntersAtNothing(b: Ledgers, i: nat, asOf: int)
    requires Sound(b) && i < |b.invoices| && b.invoices[i].status == ISSUED
    requires InView(b, asOf, b.invoices[i].entry) && CreditedBy(b, i, asOf) == b.invoices[i].header.total
    ensures EntersAtNothing(b, b.invoices[i].customer, asOf, i)
  {
    var c := b.invoices[i].customer;
    var es := CustomerLedger(b.ledger, c, asOf);
    var live := Live(es, CustomerPolicy);
    WalkAsOf(b, c, asOf);
    CustomerLedgerIsTheirs(b, c, asOf);
    LiveIsWhatStands(b, c, asOf, es);
    DebitsOfLive(b, c, asOf, es, live);
    InvoiceHasADebit(b, i, asOf, es, live);
    forall k | 0 <= k < |Debits(live)| && IsDebitOf(Debits(live)[k], i) ensures WorthBy(b, asOf, Debits(live)[k]) == 0 {
      DebitIsSpent(b, c, i, asOf, Debits(live)[k]);
    }
  }

  /** A settling row that stands. */
  function StandingTerm(b: Ledgers, asOf: int): Entry -> int {
    (e: Entry) => if Stands(b, asOf, e) then SettlingTerm(CustomerPolicy)(e) else 0
  }

  lemma PoolIsWhatStands(b: Ledgers, c: int, asOf: int)
    requires Sound(b)
    ensures PoolOf(b, c, asOf) == SumOf(Seen(c, asOf, StandingTerm(b, asOf)), b.ledger) + EarlyCredits(b, c, asOf)
  {
    var es := CustomerLedger(b.ledger, c, asOf);
    WalkAsOf(b, c, asOf);
    CustomerLedgerIsTheirs(b, c, asOf);
    LiveIsWhatStands(b, c, asOf, es);
    SumOverLive(b, c, asOf, es, SettlingTerm(CustomerPolicy), StandingTerm(b, asOf));
  }

  /** A note changes nothing about what any earlier row stands for. */
  lemma NoteKeepsStanding(b: Ledgers, b': Ledgers, i: nat, asOf: int, k: nat)
    requires Posted(b) && AddsNote(b, b', i) && k < |b.ledger|
    ensures Stands(b', asOf, b.ledger[k].entry) == Stands(b, asOf, b.ledger[k].entry)
    ensures EarlyCredit(b', asOf, b.ledger[k].entry) == EarlyCredit(b, asOf, b.ledger[k].entry)
  {
    var e := b.ledger[k].entry;
    assert Explained(b, k);
    assert forall l :: 0 <= l < |b.ledger| ==> b'.ledger[l] == b.ledger[l];
    if Adjusts(b, e) {
      if e.sourceType == INVOICE { assert InvoicePosted(b, e.sourceId.value - 1); } else { assert PaymentPosted(b, e.sourceId.value - 1); }
    }
    if Withdrawn(b, e) {
      if e.kind == INVOICE { assert InvoicePosted(b, e.sourceId.value - 1); } else { assert PaymentPosted(b, e.sourceId.value - 1); }
    }
    if e.kind == CREDIT_NOTE {
      var n := e.sourceId.value - 1;
      assert b'.notes[n] == b.notes[n] && NotePosted(b, n) && InvoicePosted(b, b.notes[n].invoice);
    }
  }

  /** Over the rows there were, the pool's two sums are as before. */
  lemma OldRowsSettleAlike(b: Ledgers, b': Ledgers, i: nat, c: int, asOf: int)
    requires Posted(b) && AddsNote(b, b', i)
    ensures SumOf(Seen(c, asOf, StandingTerm(b', asOf)), b.ledger) == SumOf(Seen(c, asOf, StandingTerm(b, asOf)), b.ledger)
    ensures SumOf(Seen(c, asOf, (e: Entry) => EarlyCredit(b', asOf, e)), b.ledger) == EarlyCredits(b, c, asOf)
  {
    var early, early' := (e: Entry) => EarlyCredit(b, asOf, e), (e: Entry) => EarlyCredit(b', asOf, e);
    forall k | 0 <= k < |b.ledger|
      ensures Seen(c, asOf, StandingTerm(b', asOf))(b.ledger[k]) == Seen(c, asOf, StandingTerm(b, asOf))(b.ledger[k])
      ensures Seen(c, asOf, early')(b.ledger[k]) == Seen(c, asOf, early)(b.ledger[k])
    {
      NoteKeepsStanding(b, b', i, asOf, k);
    }
    SumOfAgree(Seen(c, asOf, StandingTerm(b', asOf)), Seen(c, asOf, StandingTerm(b, asOf)), b.ledger);
    SumOfAgree(Seen(c, asOf, early'), Seen(c, asOf, early), b.ledger);
  }

  /** A note against an invoice in view leaves the pool as it was. */
  lemma NoteLeavesThePool(b: Ledgers, b': Ledgers, i: nat, c: int, asOf: int)
    requires Sound(b) && Sound(b') && AddsNote(b, b', i) && InView(b, asOf, b.invoices[i].entry)
    ensures PoolOf(b', c, asOf) == PoolOf(b, c, asOf)
  {
    var row := b'.ledger[|b.ledger|];
    var early' := (e: Entry) => EarlyCredit(b', asOf, e);
    PoolIsWhatStands(b, c, asOf);
    PoolIsWhatStands(b', c, asOf);
    OldRowsSettleAlike(b, b', i, c, asOf);
    SumOfSnoc(Seen(c, asOf, StandingTerm(b', asOf)), b.ledger, row);
    SumOfSnoc(Seen(c, asOf, early'), b.ledger, row);
    assert b'.ledger[b.invoices[i].entry] == b.ledger[b.invoices[i].entry];
    assert EarlyCredit(b', asOf, row.entry) == 0 && StandingTerm(b', asOf)(row.entry) == 0;
  }

  /** A note for the whole of an invoice, once in view, credits the whole of it. */
  lemma WholeNoteCreditsAll(b: Ledgers, b': Ledgers, i: nat, asOf: int)
    requires Sound(b') && AddsNote(b, b', i) && b'.notes[|b.notes|].header.total == b'.invoices[i].header.total
    requires InView(b', asOf, |b.ledger|)
    ensures CreditedBy(b', i, asOf) == b'.invoices[i].header.total
  {
    var f, row := NoteBy(b'.notes, i, asOf), b'.ledger[|b.ledger|];
    CreditedByIsCapped(b', i, asOf);
    forall k | 0 <= k < |b.ledger| ensures f(b.ledger[k]) >= 0 { assert Explained(b', k) && b'.ledger[k] == b.ledger[k]; }
    SumOfNonNegative(f, b.ledger);
    SumOfSnoc(f, b.ledger, row);
  }

  /** A note for every line at full quantity passes the cap exactly when nothing was credited before, and carries the invoice's figures. */
  lemma NoteForTheWhole(b: Ledgers, i: nat, requests: seq<Request>, lines: seq<OrderLine>, reason: string, on: Numbering.Day, uuid: Option<Uuid>)
    requires Sound(b) && i < |b.invoices| && b.invoices[i].status == ISSUED && Documented(b.invoices[i], lines)
    requires Positive(requests) && CreditsEverything(i, requests, lines, b.invoices[i].intraState) && reason != ""
    requires uuid.Some? ==> IndexWhere(NoteKeyed(uuid.value), b.notes) < 0
    requires Numbering.AllocateNumber(b.series, Numbering.CREDIT_NOTE_SERIES, on).Done?
    requires IndexWhere(NoteNumbered(Numbering.AllocateNumber(b.series, Numbering.CREDIT_NOTE_SERIES, on).value.number), b.notes) < 0
    ensures
      var r := IssueCreditNote(b, i, requests, reason, on, uuid);
      && (r.Done? <==> CreditedTotal(b.notes, i) == 0)
      && (r.Done? ==>
            && |r.value.notes| == |b.notes| + 1 && r.value.notes[|b.notes|].header == b.invoices[i].header
            && r.value.notes[|b.notes|].lines == b.invoices[i].lines
            && CreditedTotal(r.value.notes, i) == b.invoices[i].header.total)
  {
    var invoice := b.invoices[i];
    FullCreditReversesTheInvoice(i, requests, lines, invoice.intraState);
    assert CreditLines(i, requests, invoice.header.gst.igst == 0) == Done(invoice.lines)
        && CreditHeader(invoice.lines, invoice.header.gst.igst == 0) == invoice.header;
    NotesArePositive(b, i);
    InvoicesArePositive(b, i);
    NoteIsInserted(b, i, invoice.header, invoice.lines, on, uuid);
    var r := IssueCreditNote(b, i, requests, reason, on, uuid);
    if r.Done? { SumOfSnoc(NoteValue(i), b.notes, r.value.notes[|b.notes|]); }
  }

  /**
   A note for every line at full quantity passes the cap exactly when nothing was credited before. It then
   carries every figure of the invoice; and as of any date from which both are in view, the invoice's live
   debit enters settlement with nothing left on it, and the pool is what it was without the note.
   */
  lemma FullCreditNote(b: Ledgers, i: nat, requests: seq<Request>, lines: seq<OrderLine>, reason: string, on: Numbering.Day, uuid: Option<Uuid>, asOf: int)
    requires Sound(b) && i < |b.invoices| && b.invoices[i].status == ISSUED && Documented(b.invoices[i], lines)
    requires Positive(requests) && CreditsEverything(i, requests, lines, b.invoices[i].intraState) && reason != ""
    requires uuid.Some? ==> IndexWhere(NoteKeyed(uuid.value), b.notes) < 0
    requires Numbering.AllocateNumber(b.series, Numbering.CREDIT_NOTE_SERIES, on).Done?
    requires IndexWhere(NoteNumbered(Numbering.AllocateNumber(b.series, Numbering.CREDIT_NOTE_SERIES, on).value.number), b.notes) < 0
    ensures
      var r := IssueCreditNote(b, i, requests, reason, on, uuid);
      && (r.Done? <==> CreditedTotal(b.notes, i) == 0)
      && (r.Done? ==>
            && |r.value.notes| == |b.notes| + 1 && r.value.notes[|b.notes|].header == b.invoices[i].header
            && r.value.notes[|b.notes|].lines == b.invoices[i].lines
            && CreditedTotal(r.value.notes, i) == b.invoices[i].header.total
            && (InView(b, asOf, b.invoices[i].entry) && InView(r.value, asOf, |b.ledger|) ==>
                  && EntersAtNothing(r.value, b.invoices[i].customer, asOf, i)
                  && PoolOf(r.value, b.invoices[i].customer, asOf) == PoolOf(b, b.invoices[i].customer, asOf)))
  {
    NoteForTheWhole(b, i, requests, lines, reason, on, uuid);
    var r := IssueCreditNote(b, i, requests, reason, on, uuid);
    if r.Done? && InView(b, asOf, b.invoices[i].entry) && InView(r.value, asOf, |b.ledger|) {
      FullNoteInTheWalk(b, i, requests, reason, on, uuid, asOf);
    }
  }

  lemma FullNoteInTheWalk(b: Ledgers, i: nat, requests: seq<Request>, reason: string, on: Numbering.Day, uuid: Option<Uuid>, asOf: int)
    requires Sound(b) && i < |b.invoices| && b.invoices[i].status == ISSUED && Positive(requests)
    requires var r := IssueCreditNote(b, i, requests, reason, on, uuid);
             && r.Done? && r.value != b && |r.value.notes| == |b.notes| + 1 && r.value.notes[|b.notes|].header == b.invoices[i].header
             && InView(b, asOf, b.invoices[i].entry) && InView(r.value, asOf, |b.ledger|)
    ensures
      var b' := IssueCreditNote(b, i, requests, reason, on, uuid).value;
      EntersAtNothing(b', b.invoices[i].customer, asOf, i) && PoolOf(b', b.invoices[i].customer, asOf) == PoolOf(b, b.invoices[i].customer, asOf)
  {
    var b' := IssueCreditNote(b, i, requests, reason, on, uuid).value;
    CreditAddsNote(b, i, requests, reason, on, uuid);
    CreditSound(b, i, requests, reason, on, uuid);
    assert InvoicePosted(b, i) && b'.ledger[b.invoices[i].entry] == b.ledger[b.invoices[i].entry];
    WholeNoteCreditsAll(b, b', i, asOf);
    CreditedInFullEntersAtNothing(b', i, asOf);
    NoteLeavesThePool(b, b', i, b.invoices[i].customer, asOf);
  }

  /** A positive note with a free number is inserted with the header and lines it was given. */
  lemma NoteIsInserted(b: Ledgers, i: nat, header: Header, lines: seq<DocumentLine>, on: Numbering.Day, uuid: Option<Uuid>)
    requires i < |b.invoices| && header.total > 0 && Numbering.AllocateNumber(b.series, Numbering.CREDIT_NOTE_SERIES, on).Done?
    requires IndexWhere(NoteNumbered(Numbering.AllocateNumber(b.series, Numbering.CREDIT_NOTE_SERIES, on).value.number), b.notes) < 0
    ensures var r := PostNote(b, i, header, lines, on, uuid);
            && r.Done? && |r.value.notes| == |b.notes| + 1 && r.value.notes == b.notes + [r.value.notes[|b.notes|]]
            && r.value.notes[|b.notes|].header == header && r.value.notes[|b.notes|].lines == lines && r.value.notes[|b.notes|].invoice == i
  {
  }

  lemma InvoicesArePositive(b: Ledgers, i: nat)
    requires Posted(b) && i < |b.invoices|
    ensures b.invoices[i].header.total > 0
  {
    assert InvoicePosted(b, i) && Explained(b, b.invoices[i].entry);
  }

  lemma NotesArePositive(b: Ledgers, i: nat)
    requires Posted(b)
    ensures CreditedTotal(b.notes, i) >= 0
  {
    forall n | 0 <= n < |b.notes| ensures NoteValue(i)(b.notes[n]) >= 0 {
      assert NotePosted(b, n) && Explained(b, b.notes[n].entry);
    }
    SumOfNonNegative(NoteValue(i), b.notes);
  }

  /** Credit only accumulates. */
  lemma {:induction false} CreditOnlyGrows(notes: seq<Note>, later: seq<Note>, i: nat)
    requires notes <= later && forall n :: 0 <= n < |later| ==> NoteValue(i)(later[n]) >= 0
    ensures CreditedTotal(notes, i) <= CreditedTotal(later, i)
  {
    if |notes| < |later| {
      CreditOnlyGrows(notes, later[..|later| - 1], i);
    } else {
      assert notes == later;
    }
  }

  /**
   Once an invoice is credited in full it is closed for good: after anything else has happened, no request
   against it commits anything, whatever it asks for.
   */
  lemma FullyCreditedIsClosed(b: Ledgers, i: nat, actions: seq<Action>, requests: seq<Request>, reason: string, on: Numbering.Day, uuid: Option<Uuid>)
    requires Sound(b) && AllSane(actions) && Positive(requests)
    requires i < |b.invoices| && CreditedTotal(b.notes, i) == b.invoices[i].header.total
    ensures
      var later := Run(b, actions);
      && i < |later.invoices| && CreditedTotal(later.notes, i) == later.invoices[i].header.total && later.invoices[i].status == ISSUED
      && var r := IssueCreditNote(later, i, requests, reason, on, uuid);
         r.Done? ==> r.value == later
  {
    var later := Run(b, actions);
    RunSound(b, actions);
    RunGrows(b, actions);
    assert InvoiceStays(b.invoices[i], later.invoices[i]);
    forall n | 0 <= n < |later.notes| ensures NoteValue(i)(later.notes[n]) >= 0 {
      assert NotePosted(later, n) && Explained(later, later.notes[n].entry);
    }
    CreditOnlyGrows(b.notes, later.notes, i);
    InvoicesArePositive(later, i);
    CreditedMeansIssued(later, i);
    CreditAddsNote(later, i, requests, reason, on, uuid);
  }

  /** Only an uncancelled invoice carries credit. */
  lemma CreditedMeansIssued(b: Ledgers, i: nat)
    requires Posted(b) && i < |b.invoices| && CreditedTotal(b.notes, i) > 0
    ensures b.invoices[i].status == ISSUED
  {
    if forall n :: 0 <= n < |b.notes| ==> b.notes[n].invoice != i {
      NothingCredited(b.notes, i);
    } else {
      var n :| 0 <= n < |b.notes| && b.notes[n].invoice == i;
      assert NotePosted(b, n);
    }
  }

  // ------------------------------------------------------------------ the report's reading order

  /** A customer's open documents are listed oldest first, none dated after the report; and the customer is listed at all exactly when the balance is not nil. */
  lemma OldestIsListedFirst(table: seq<Row>, notes: map<int, int>, c: int, asOf: int)
    ensures
      var p := OutstandingFor(table, notes, c, asOf);
      && p.partyId == c && p.asOf == asOf && (Unsettled(p) <==> p.balance != 0)
      && (forall i :: 0 <= i < |p.openItems| ==> p.openItems[i].ageDays == asOf - p.openItems[i].date >= 0)
      && (forall i, j :: 0 <= i < j < |p.openItems| ==> p.openItems[i].ageDays >= p.openItems[j].ageDays)
  {
    var es := CustomerLedger(table, c, asOf);
    var targets, items := CreditNoteTargets(es, notes), OutstandingFor(table, notes, c, asOf).openItems;
    LedgerIsInOrder(table, c, asOf);
    PositionAddsUp(c, asOf, es, targets, CustomerPolicy);
    forall i | 0 <= i < |items| ensures items[i].ageDays == asOf - items[i].date >= 0 {
      AgeOfItem(c, asOf, es, targets, CustomerPolicy, items[i]);
    }
    forall i, j | 0 <= i < j < |items| ensures items[i].ageDays >= items[j].ageDays {
      AgesDoNotIncrease(c, asOf, es, targets, CustomerPolicy, i, j);
    }
  }
}
