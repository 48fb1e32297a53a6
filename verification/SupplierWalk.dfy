/** The supplier ledger against the walk, as of any date: what stays in it, and what it comes to. */
module SupplierWalk {
  import opened Outcomes
  import opened Sums
  import opened Querysets
  import opened Vocabulary
  import opened LedgerWalk
  import opened WalkLaws
  import opened Receivables
  import opened Purchasing
  import opened SupplierLaws

  predicate SupplierRowByDate(a: SupplierRow, b: SupplierRow) { ByDate(a.entry, b.entry) }

  /** `filter(supplier=s, entry_date__lte=as_of)` */
  function OfSupplier(s: int, asOf: int): SupplierRow -> bool { (r: SupplierRow) => r.supplier == s && r.entry.date <= asOf }

  function SupplierRows(ledger: seq<SupplierRow>, s: int, asOf: int): seq<SupplierRow> {
    OrderBy(SupplierRowByDate, Filter(OfSupplier(s, asOf), ledger))
  }

  function SupplierEntries(rows: seq<SupplierRow>): (es: seq<Entry>)
    ensures |es| == |rows| && forall i :: 0 <= i < |rows| ==> es[i] == rows[i].entry
  {
    seq(|rows|, i requires 0 <= i < |rows| => rows[i].entry)
  }

  function SupplierLedger(ledger: seq<SupplierRow>, s: int, asOf: int): seq<Entry> { SupplierEntries(SupplierRows(ledger, s, asOf)) }

  /** What is still owed to one supplier. No document reduces a receipt, so the targets are empty. */
  function SupplierPosition(ledger: seq<SupplierRow>, s: int, asOf: int): Position {
    LedgerPosition(s, asOf, SupplierLedger(ledger, s, asOf), map[], SupplierPolicy)
  }

  // ------------------------------------------------------------------ a supplier's ledger, row by row

  predicate InView(t: Tables, asOf: int, k: nat) { k < |t.ledger| && t.ledger[k].entry.date <= asOf }

  predicate IsRowOf(t: Tables, s: int, e: Entry) {
    && 0 < e.pk <= |t.ledger| && t.ledger[e.pk - 1].entry == e && t.ledger[e.pk - 1].supplier == s
    && Explained(t, e.pk - 1)
  }

  ghost predicate IsLedgerOf(t: Tables, s: int, asOf: int, es: seq<Entry>) {
    && (forall e :: e in es ==> IsRowOf(t, s, e) && e.date <= asOf)
    && (forall k :: 0 <= k < |t.ledger| && t.ledger[k].supplier == s && InView(t, asOf, k) ==> t.ledger[k].entry in es)
    && DistinctKeys(es)
  }

  lemma RowIsItsKey(t: Tables, r: SupplierRow)
    requires Posted(t) && r in t.ledger
    ensures 0 < r.entry.pk <= |t.ledger| && t.ledger[r.entry.pk - 1] == r && Explained(t, r.entry.pk - 1)
  {
    var k :| 0 <= k < |t.ledger| && t.ledger[k] == r;
    assert Explained(t, k);
  }

  lemma SupplierLedgerIsTheirs(t: Tables, s: int, asOf: int)
    requires Posted(t)
    ensures IsLedgerOf(t, s, asOf, SupplierLedger(t.ledger, s, asOf))
  {
    var found, rows := Filter(OfSupplier(s, asOf), t.ledger), SupplierRows(t.ledger, s, asOf);
    FilterMembers(OfSupplier(s, asOf), t.ledger);
    OrderByMembers(SupplierRowByDate, found);
    forall i, j | 0 <= i < j < |t.ledger| ensures t.ledger[i] != t.ledger[j] { assert Explained(t, i) && Explained(t, j); }
    FilterDistinct(OfSupplier(s, asOf), t.ledger);
    OrderByDistinct(SupplierRowByDate, found);
    EntriesAreTheirs(t, s, asOf, rows);
  }

  lemma EntriesAreTheirs(t: Tables, s: int, asOf: int, rows: seq<SupplierRow>)
    requires Posted(t) && Distinct(rows)
    requires forall r :: r in rows <==> r in t.ledger && r.supplier == s && r.entry.date <= asOf
    ensures IsLedgerOf(t, s, asOf, SupplierEntries(rows))
  {
    var es := SupplierEntries(rows);
    forall i | 0 <= i < |es| ensures IsRowOf(t, s, es[i]) && es[i].date <= asOf && t.ledger[es[i].pk - 1] == rows[i] {
      assert rows[i] in rows;
      RowIsItsKey(t, rows[i]);
    }
    forall k | 0 <= k < |t.ledger| && t.ledger[k].supplier == s && InView(t, asOf, k) ensures t.ledger[k].entry in es {
      assert t.ledger[k] in rows;
      var i :| 0 <= i < |rows| && rows[i] == t.ledger[k];
      assert es[i] == t.ledger[k].entry;
    }
  }

  // ------------------------------------------------------------------ what stays in the walk

  predicate OfPayment(t: Tables, e: Entry) { e.sourceType == PAYMENT && e.sourceId.Some? && 0 < e.sourceId.value <= |t.payments| }

  /** The row of a payment's other half: its reversal, or the payment a reversal is of. */
  function OtherHalf(t: Tables, e: Entry): Option<nat> {
    if !OfPayment(t, e) then None
    else if e.kind == ADJUSTMENT then Some(t.payments[e.sourceId.value - 1].entry)
    else if e.kind == PAYMENT then t.payments[e.sourceId.value - 1].reversalEntry
    else None
  }

  /** Everything stands but the two halves of a reversed payment, once both are in view. */
  predicate Stands(t: Tables, asOf: int, e: Entry) { OtherHalf(t, e).Some? ==> !InView(t, asOf, OtherHalf(t, e).value) }

  /** A reversal and the payment it is of. */
  predicate Halves(t: Tables, a: Entry, p: Entry) {
    && a.kind == ADJUSTMENT && p.kind == PAYMENT && SameDocument(a, p) && OfPayment(t, a)
    && OtherHalf(t, a) == Some(p.pk - 1) && OtherHalf(t, p) == Some(a.pk - 1)
  }

  lemma ReversalsAreHalves(t: Tables, s: int, a: Entry, p: Entry)
    requires Posted(t) && IsRowOf(t, s, a) && IsRowOf(t, s, p) && a.kind == ADJUSTMENT && SameDocument(a, p) && CreatedBySource(p)
    ensures Halves(t, a, p)
  {
    assert PaymentPosted(t, a.sourceId.value - 1);
  }

  lemma AnnulledDoesNotStand(t: Tables, s: int, asOf: int, es: seq<Entry>, e: Entry)
    requires Posted(t) && IsLedgerOf(t, s, asOf, es) && e in es && e.pk in Annulled(es, SupplierPolicy)
    ensures !Stands(t, asOf, e)
  {
    var a, p := AnnulledPair(es, SupplierPolicy, e);
    ReversalsAreHalves(t, s, a, p);
  }

  lemma HalvesLeave(t: Tables, s: int, asOf: int, es: seq<Entry>, a: Entry, p: Entry)
    requires Posted(t) && IsLedgerOf(t, s, asOf, es) && a in es && p in es && Halves(t, a, p)
    ensures a.pk in Annulled(es, SupplierPolicy) && p.pk in Annulled(es, SupplierPolicy)
  {
    var i :| 0 <= i < |es| && es[i] == a;
    var j :| 0 <= j < |es| && es[j] == p;
    OnlyTwoRows(t, s, asOf, es, j, i);
    assert Annuls(es, SupplierPolicy, i, j);
  }

  /** Of the rows pointing at one payment, only its own was created by it and only its reversal offsets it. */
  lemma OnlyTwoRows(t: Tables, s: int, asOf: int, es: seq<Entry>, j: int, i: int)
    requires Posted(t) && IsLedgerOf(t, s, asOf, es) && 0 <= j < |es| && 0 <= i < |es| && Halves(t, es[i], es[j])
    ensures IsTarget(es, j) && Offsets(es, SupplierPolicy, i, j)
    ensures forall k :: 0 <= k < i ==> !Offsets(es, SupplierPolicy, k, j)
  {
    assert es[j] in es && es[i] in es && IsRowOf(t, s, es[j]) && IsRowOf(t, s, es[i]);
    assert PAYMENT in SupplierPolicy.annullable;
    forall k | j < k < |es| && CreatedBySource(es[k]) ensures !SameDocument(es[k], es[j]) {
      assert es[k] in es && IsRowOf(t, s, es[k]) && es[k].pk != es[j].pk;
    }
    forall k | 0 <= k < i ensures !Offsets(es, SupplierPolicy, k, j) {
      assert es[k] in es && IsRowOf(t, s, es[k]) && es[k].pk != es[i].pk;
    }
  }

  lemma NotStandingLeaves(t: Tables, s: int, asOf: int, es: seq<Entry>, e: Entry)
    requires Posted(t) && IsLedgerOf(t, s, asOf, es) && e in es && !Stands(t, asOf, e)
    ensures e.pk in Annulled(es, SupplierPolicy)
  {
    assert IsRowOf(t, s, e) && PaymentPosted(t, e.sourceId.value - 1);
    var k := OtherHalf(t, e).value;
    assert Explained(t, k);
    var other := t.ledger[k].entry;
    assert other in es;
    if e.kind == ADJUSTMENT { HalvesLeave(t, s, asOf, es, e, other); } else { HalvesLeave(t, s, asOf, es, other, e); }
  }

  /** A receipt, an opening, or a payment nobody reversed. */
  predicate Owed(t: Tables, e: Entry) {
    e.kind == GOODS_RECEIPT || e.kind == OPENING || (e.kind == PAYMENT && OfPayment(t, e) && !t.payments[e.sourceId.value - 1].reversed)
  }

  ghost predicate Whole(ledger: seq<SupplierRow>, asOf: int) { forall k :: 0 <= k < |ledger| ==> ledger[k].entry.date <= asOf }

  /** With the whole ledger in view, what stands is exactly the receipts, the openings and the unreversed payments. */
  lemma WholeStands(t: Tables, s: int, asOf: int, e: Entry)
    requires Posted(t) && Whole(t.ledger, asOf) && IsRowOf(t, s, e)
    ensures Stands(t, asOf, e) <==> Owed(t, e)
  {
    if OfPayment(t, e) { assert PaymentPosted(t, e.sourceId.value - 1); }
  }

  /**
   As of any date the walk keeps exactly the entries that stand, each once; and over a whole ledger those
   are the receipts, the openings and the payments nobody reversed.
   */
  lemma LiveIsWhatStands(t: Tables, s: int, asOf: int)
    requires Posted(t)
    ensures
      var es := SupplierLedger(t.ledger, s, asOf);
      var live := Live(es, SupplierPolicy);
      && (forall e :: e in live <==> e in es && Stands(t, asOf, e))
      && DistinctKeys(live)
      && (Whole(t.ledger, asOf) ==> forall e :: e in live <==> e in es && Owed(t, e))
  {
    var es := SupplierLedger(t.ledger, s, asOf);
    var gone := Annulled(es, SupplierPolicy);
    var keep := (e: Entry) => e.pk !in gone;
    SupplierLedgerIsTheirs(t, s, asOf);
    FilterMembers(keep, es);
    forall e | e in es ensures e.pk !in gone <==> Stands(t, asOf, e) {
      if e.pk in gone { AnnulledDoesNotStand(t, s, asOf, es, e); }
      if !Stands(t, asOf, e) { NotStandingLeaves(t, s, asOf, es, e); }
    }
    FilterKeepsKeys(keep, es);
    if Whole(t.ledger, asOf) {
      forall e | e in es ensures Stands(t, asOf, e) <==> Owed(t, e) { WholeStands(t, s, asOf, e); }
    }
  }

  // ------------------------------------------------------------------ what it comes to

  lemma {:induction false} SumOverEntries(f: Entry -> int, g: SupplierRow -> int, rows: seq<SupplierRow>)
    requires forall i :: 0 <= i < |rows| ==> f(rows[i].entry) == g(rows[i])
    ensures SumOf(f, SupplierEntries(rows)) == SumOf(g, rows)
  {
    if |rows| != 0 {
      var front := rows[..|rows| - 1];
      forall i | 0 <= i < |front| ensures f(front[i].entry) == g(front[i]) { assert front[i] == rows[i]; }
      SumOverEntries(f, g, front);
      assert SupplierEntries(rows)[..|rows| - 1] == SupplierEntries(front);
    }
  }

  /** Over a whole ledger the walk's entries sum to the derived balance. */
  lemma LedgerSum(t: Tables, s: int, asOf: int)
    requires Whole(t.ledger, asOf)
    ensures SumOf(AmountOf(), SupplierLedger(t.ledger, s, asOf)) == SumOf(SupplierAmount(s), t.ledger)
  {
    var found, g := Filter(OfSupplier(s, asOf), t.ledger), SupplierAmount(s);
    FilterMembers(OfSupplier(s, asOf), t.ledger);
    OrderByMembers(SupplierRowByDate, found);
    var rows := SupplierRows(t.ledger, s, asOf);
    forall i | 0 <= i < |rows| ensures AmountOf()(rows[i].entry) == g(rows[i]) { assert rows[i] in found; }
    SumOverEntries(AmountOf(), g, rows);
    SumOfOrderBy(g, SupplierRowByDate, found);
    SumOfFilter(g, OfSupplier(s, asOf), t.ledger);
  }

  /** What a supplier is owed, by the documents: opening and receipts, less the payments that stand. */
  function Account(t: Tables, s: int): int {
    SumOf(OpeningAmount(s), t.ledger) + SumOf(ReceiptWorth(s), t.receipts) - SumOf(PaymentWorth(s), t.payments)
  }

  /** Outstanding when the account is positive, credit when it is negative, and nothing but receipts, openings and standing payments behind it. */
  ghost predicate ShowsTheAccount(t: Tables, s: int, asOf: int) {
    var (p, es) := (SupplierPosition(t.ledger, s, asOf), SupplierLedger(t.ledger, s, asOf));
    && p.balance == Account(t, s) && p.totalOutstanding == Max(0, Account(t, s)) && p.creditOnAccount == Max(0, -Account(t, s))
    && forall e :: e in Live(es, SupplierPolicy) <==> e in es && Owed(t, e)
  }

  lemma PositionIsTheAccount(t: Tables, s: int, asOf: int)
    requires Posted(t) && Balanced(t, s) && Whole(t.ledger, asOf)
    ensures ShowsTheAccount(t, s, asOf)
  {
    BalanceIsTheAccount(t, s, asOf);
    LiveIsWhatStands(t, s, asOf);
  }

  lemma BalanceIsTheAccount(t: Tables, s: int, asOf: int)
    requires Posted(t) && Balanced(t, s) && Whole(t.ledger, asOf)
    ensures var p := SupplierPosition(t.ledger, s, asOf);
            p.balance == Account(t, s) && p.totalOutstanding == Max(0, p.balance) && p.creditOnAccount == Max(0, -p.balance)
  {
    var es := SupplierLedger(t.ledger, s, asOf);
    SupplierLedgerIsTheirs(t, s, asOf);
    forall e | e in es ensures e.kind != DEBIT_NOTE { assert IsRowOf(t, s, e); }
    NothingReduces(s, asOf, es, map[], SupplierPolicy);
    Conservation(s, asOf, es, map[], SupplierPolicy);
    LedgerSum(t, s, asOf);
  }

  /** Over every run at one tolerance, the position the walk shows is opening plus receipts less the payments that stand. */
  lemma EveryRunsPosition(actions: seq<Action>, tolerance: int, s: int, asOf: int)
    requires AllSane(actions) && tolerance >= 0 && Whole(Run(Empty, actions, tolerance).ledger, asOf)
    ensures ShowsTheAccount(Run(Empty, actions, tolerance), s, asOf)
  {
    EveryRunIsAccounted(actions, tolerance);
    PositionIsTheAccount(Run(Empty, actions, tolerance), s, asOf);
  }
}
