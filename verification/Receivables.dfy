/**
 The customer side of the walk: one customer at a time, and every visible customer in one pass.
 Tables are sequences of rows in storage order; a query filters and orders them.
 */
module Receivables {
  import opened Outcomes
  import opened Querysets
  import opened Sums
  import opened Vocabulary
  import opened LedgerWalk

  const CustomerPolicy: WalkPolicy := WalkPolicy(ADJUSTMENT, [INVOICE, PAYMENT], CREDIT_NOTE, INVOICE)

  /** One `customer_ledger_entry` row. */
  datatype Row = Row(customerId: int, entry: Entry, salesOrder: Option<int>)

  predicate ByDate(a: Entry, b: Entry) {
    a.date < b.date || (a.date == b.date && a.pk <= b.pk)
  }

  predicate RowByDate(a: Row, b: Row) { ByDate(a.entry, b.entry) }

  predicate RowByCustomerThenDate(a: Row, b: Row) {
    a.customerId < b.customerId || (a.customerId == b.customerId && ByDate(a.entry, b.entry))
  }

  lemma RowOrdersAreTotal()
    ensures TotalOrder(RowByDate) && TotalOrder(RowByCustomerThenDate)
  {
  }

  function EntriesOf(rows: seq<Row>): (es: seq<Entry>)
    ensures |es| == |rows|
    ensures forall i :: 0 <= i < |rows| ==> es[i] == rows[i].entry
  {
    seq(|rows|, i requires 0 <= i < |rows| => rows[i].entry)
  }

  /** `filter(customer=c, entry_date__lte=as_of)` */
  function OfCustomer(c: int, asOf: int): Row -> bool {
    (r: Row) => r.customerId == c && r.entry.date <= asOf
  }

  /** One customer's ledger up to `asOf`, oldest first. */
  function CustomerLedger(table: seq<Row>, c: int, asOf: int): seq<Entry> {
    EntriesOf(OrderBy(RowByDate, Filter(OfCustomer(c, asOf), table)))
  }

  /** The credit notes the entries name, each mapped to the invoice it credits. */
  function CreditNoteTargets(es: seq<Entry>, notes: map<int, int>): map<int, int> {
    map id | id in notes && NamesNote(es, id) :: notes[id]
  }

  predicate NamesNote(es: seq<Entry>, id: int) {
    id != 0 && exists i :: 0 <= i < |es| && es[i].kind == CREDIT_NOTE && es[i].sourceId == Some(id)
  }

  /** `outstanding_for`: the position of one customer. */
  function OutstandingFor(table: seq<Row>, notes: map<int, int>, c: int, asOf: int): Position {
    var es := CustomerLedger(table, c, asOf);
    PositionOf(c, asOf, Live(es, CustomerPolicy), CreditNoteTargets(es, notes), CustomerPolicy)
  }

  /** The query hands the walk exactly the customer's rows dated by then, oldest first. */
  lemma LedgerIsInOrder(table: seq<Row>, c: int, asOf: int)
    ensures forall i, j :: 0 <= i < j < |CustomerLedger(table, c, asOf)| ==>
              var (a, b) := (CustomerLedger(table, c, asOf)[i], CustomerLedger(table, c, asOf)[j]);
              a.date < b.date || (a.date == b.date && a.pk <= b.pk)
    ensures forall e :: e in CustomerLedger(table, c, asOf) ==> e.date <= asOf
  {
    var rows := Filter(OfCustomer(c, asOf), table);
    RowOrdersAreTotal();
    OrderByAscending(RowByDate, rows);
    OrderByMembers(RowByDate, rows);
    FilterMembers(OfCustomer(c, asOf), table);
    forall i | 0 <= i < |CustomerLedger(table, c, asOf)| ensures CustomerLedger(table, c, asOf)[i].date <= asOf {
      assert OrderBy(RowByDate, rows)[i] in rows;
    }
  }

  // ------------------------------------------------------------------ one shared target map

  /** Two target maps send every reducing entry to the same place. */
  ghost predicate SameTargets(live: seq<Entry>, t1: map<int, int>, t2: map<int, int>, policy: WalkPolicy) {
    forall i :: 0 <= i < |live| && live[i].kind == policy.reducingType ==>
      var id := if live[i].sourceId.Some? then live[i].sourceId.value else 0;
      (id in t1 <==> id in t2) && (id in t1 ==> t1[id] == t2[id])
  }

  lemma SameCredits(live: seq<Entry>, t1: map<int, int>, t2: map<int, int>, policy: WalkPolicy, i: int)
    requires SameTargets(live, t1, t2, policy)
    ensures CreditTo(live, t1, Debits(live), policy, i) == CreditTo(live, t2, Debits(live), policy, i)
  {
    SumOfAgree(CreditTerm(t1, Debits(live), policy, i), CreditTerm(t2, Debits(live), policy, i), live);
  }

  /** They then leave every debit and the pool alike. */
  lemma SameReductions(live: seq<Entry>, t1: map<int, int>, t2: map<int, int>, policy: WalkPolicy)
    requires SameTargets(live, t1, t2, policy)
    ensures Reduced(live, t1, policy, |live|) == Reduced(live, t2, policy, |live|)
    ensures Pool(live, t1, policy) == Pool(live, t2, policy)
  {
    assert live[..|live|] == live;
    forall i ensures CreditTo(live, t1, Debits(live), policy, i) == CreditTo(live, t2, Debits(live), policy, i) {
      SameCredits(live, t1, t2, policy, i);
    }
    assert Spilled(live, t1, policy, |live|) == Spilled(live, t2, policy, |live|);
  }

  /** Two target maps that agree on every note the live entries name give the same position. */
  lemma PositionNeedsOwnTargets(c: int, asOf: int, live: seq<Entry>, t1: map<int, int>, t2: map<int, int>, policy: WalkPolicy)
    requires SameTargets(live, t1, t2, policy)
    ensures PositionOf(c, asOf, live, t1, policy) == PositionOf(c, asOf, live, t2, policy)
  {
    SameReductions(live, t1, t2, policy);
  }

  /** A wider target map, drawn from the same credit notes, changes no customer's position. */
  lemma SharedTargets(c: int, asOf: int, es: seq<Entry>, all: seq<Entry>, notes: map<int, int>)
    requires forall i :: 0 <= i < |es| ==> es[i] in all
    ensures PositionOf(c, asOf, Live(es, CustomerPolicy), CreditNoteTargets(all, notes), CustomerPolicy)
            == PositionOf(c, asOf, Live(es, CustomerPolicy), CreditNoteTargets(es, notes), CustomerPolicy)
  {
    var gone := Annulled(es, CustomerPolicy);
    var live := Live(es, CustomerPolicy);
    FilterMembers((e: Entry) => e.pk !in gone, es);
    forall i | 0 <= i < |live| && live[i].kind == CREDIT_NOTE && live[i].sourceId.Some? && live[i].sourceId.value != 0
      ensures NamesNote(es, live[i].sourceId.value) && NamesNote(all, live[i].sourceId.value)
    {
      assert live[i] in live;
      var k :| 0 <= k < |es| && es[k] == live[i];
      var l :| 0 <= l < |all| && all[l] == es[k];
    }
    PositionNeedsOwnTargets(c, asOf, live, CreditNoteTargets(all, notes), CreditNoteTargets(es, notes), CustomerPolicy);
  }

  // ------------------------------------------------------------------ the batched computation

  /** `filter(customer_id__in=ids, entry_date__lte=as_of)` */
  function OfCustomers(ids: seq<int>, asOf: int): Row -> bool {
    (r: Row) => r.customerId in ids && r.entry.date <= asOf
  }

  /** The one query behind the batched form: every visible customer's rows, customer by customer. */
  function BatchRows(table: seq<Row>, ids: seq<int>, asOf: int): seq<Row> {
    OrderBy(RowByCustomerThenDate, Filter(OfCustomers(ids, asOf), table))
  }

  function IsCustomer(c: int): Row -> bool { (r: Row) => r.customerId == c }

  /** Picking one customer out of the batch gives that customer's own ledger, in its own order. */
  lemma BatchGroup(table: seq<Row>, ids: seq<int>, c: int, asOf: int)
    requires c in ids
    ensures EntriesOf(Filter(IsCustomer(c), BatchRows(table, ids, asOf))) == CustomerLedger(table, c, asOf)
  {
    var kept := Filter(OfCustomers(ids, asOf), table);
    RowOrdersAreTotal();
    FilterOrderBy(IsCustomer(c), RowByCustomerThenDate, RowByDate, kept);
    FilterTwice(OfCustomers(ids, asOf), IsCustomer(c), OfCustomer(c, asOf), table);
  }

  /** The answer the per-customer walk gives, customer by customer. */
  function Positions(table: seq<Row>, notes: map<int, int>, ids: seq<int>, asOf: int): (ps: seq<Position>)
    ensures |ps| == |ids|
    ensures forall i :: 0 <= i < |ids| ==> ps[i] == OutstandingFor(table, notes, ids[i], asOf)
  {
    seq(|ids|, i requires 0 <= i < |ids| => OutstandingFor(table, notes, ids[i], asOf))
  }

  predicate Unsettled(p: Position) { p.openItems != [] || p.creditOnAccount != 0 }

  method GroupRows(rows: seq<Row>, ids: seq<int>) returns (grouped: map<int, seq<Entry>>, entries: seq<Entry>)
    requires forall i :: 0 <= i < |rows| ==> rows[i].customerId in ids
    ensures forall c :: c in ids ==> c in grouped && grouped[c] == EntriesOf(Filter(IsCustomer(c), rows))
    ensures entries == EntriesOf(rows)
  {
    grouped := map c | c in ids :: [];
    entries := [];
    for i := 0 to |rows|
      invariant forall c :: c in ids ==> c in grouped && grouped[c] == EntriesOf(Filter(IsCustomer(c), rows[..i]))
      invariant entries == EntriesOf(rows[..i])
    {
      var r := rows[i];
      assert rows[..i + 1] == rows[..i] + [r];
      forall c | c in ids
        ensures EntriesOf(Filter(IsCustomer(c), rows[..i + 1]))
                == EntriesOf(Filter(IsCustomer(c), rows[..i])) + if c == r.customerId then [r.entry] else []
      {
        FilterSnoc(IsCustomer(c), rows[..i], r);
      }
      entries := entries + [r.entry];
      grouped := grouped[r.customerId := grouped[r.customerId] + [r.entry]];
    }
    assert rows[..|rows|] == rows;
  }

  /** Three queries and one pass return, in order, exactly what the per-customer walk returns. */
  method ReceivablesPosition(table: seq<Row>, notes: map<int, int>, ids: seq<int>, asOf: int, includeSettled: bool)
    returns (positions: seq<Position>)
    ensures positions == if includeSettled then Positions(table, notes, ids, asOf)
                         else Filter(Unsettled, Positions(table, notes, ids, asOf))
  {
    if ids == [] {
      positions := [];
      return;
    }
    var rows := BatchRows(table, ids, asOf);
    BatchMembers(table, ids, asOf);
    var grouped, entries := GroupRows(rows, ids);
    var targets := CreditNoteTargets(entries, notes);
    positions := [];
    for i := 0 to |ids|
      invariant positions == Positions(table, notes, ids, asOf)[..i]
    {
      var own := grouped[ids[i]];
      BatchGroup(table, ids, ids[i], asOf);
      GroupWithinBatch(rows, ids[i]);
      SharedTargets(ids[i], asOf, own, entries, notes);
      var p := Walk(ids[i], asOf, own, targets, CustomerPolicy);
      positions := positions + [p];
    }
    assert positions == Positions(table, notes, ids, asOf);
    if !includeSettled {
      positions := Filter(Unsettled, positions);
    }
  }

  lemma BatchMembers(table: seq<Row>, ids: seq<int>, asOf: int)
    ensures forall i :: 0 <= i < |BatchRows(table, ids, asOf)| ==> BatchRows(table, ids, asOf)[i].customerId in ids
  {
    var kept := Filter(OfCustomers(ids, asOf), table);
    FilterMembers(OfCustomers(ids, asOf), table);
    OrderByMembers(RowByCustomerThenDate, kept);
    forall i | 0 <= i < |BatchRows(table, ids, asOf)| ensures BatchRows(table, ids, asOf)[i].customerId in ids {
      assert BatchRows(table, ids, asOf)[i] in BatchRows(table, ids, asOf);
    }
  }

  lemma GroupWithinBatch(rows: seq<Row>, c: int)
    ensures forall i :: 0 <= i < |EntriesOf(Filter(IsCustomer(c), rows))| ==> EntriesOf(Filter(IsCustomer(c), rows))[i] in EntriesOf(rows)
  {
    var own := Filter(IsCustomer(c), rows);
    FilterMembers(IsCustomer(c), rows);
    forall i | 0 <= i < |own| ensures EntriesOf(own)[i] in EntriesOf(rows) {
      assert own[i] in own;
      var k :| 0 <= k < |rows| && rows[k] == own[i];
      assert EntriesOf(rows)[k] == own[i].entry;
    }
  }

  // ------------------------------------------------------------------ the statement

  function RowAmount(): Row -> int { (r: Row) => r.entry.amount }

  /** `settled_balance(customer, as_of)`: the sum of everything dated up to then. */
  function SettledBalance(table: seq<Row>, c: int, asOf: int): int {
    SumOf(RowAmount(), Filter(OfCustomer(c, asOf), table))
  }

  function InPeriod(c: int, first: int, last: int): Row -> bool {
    (r: Row) => r.customerId == c && first <= r.entry.date <= last
  }

  datatype Statement = Statement(opening: int, entries: seq<Row>, closing: int)

  function CustomerStatement(table: seq<Row>, c: int, first: Option<int>, last: int): Statement {
    if first.Some? then
      Statement(SettledBalance(table, c, first.value - 1),
                OrderBy(RowByDate, Filter(InPeriod(c, first.value, last), table)),
                SettledBalance(table, c, last))
    else
      Statement(0, OrderBy(RowByDate, Filter(OfCustomer(c, last), table)), SettledBalance(table, c, last))
  }

  /**
   A statement reconciles: opening plus the listed entries is closing. It is off by exactly the
   entries dated after the last day and before the first, so it holds for every period that is not inverted.
   */
  lemma StatementReconciles(table: seq<Row>, c: int, first: Option<int>, last: int)
    ensures
      var s := CustomerStatement(table, c, first, last);
      s.opening + SumOf(RowAmount(), s.entries) - s.closing
      == if first.Some? then SumOf(RowAmount(), Filter(InPeriod(c, last + 1, first.value - 1), table)) else 0
  {
    if first.Some? {
      SumOfOrderBy(RowAmount(), RowByDate, Filter(InPeriod(c, first.value, last), table));
      PeriodsAdd(table, c, first.value, last);
    } else {
      SumOfOrderBy(RowAmount(), RowByDate, Filter(OfCustomer(c, last), table));
    }
  }

  lemma {:induction false} PeriodsAdd(table: seq<Row>, c: int, first: int, last: int)
    ensures SettledBalance(table, c, first - 1) + SumOf(RowAmount(), Filter(InPeriod(c, first, last), table))
            == SettledBalance(table, c, last) + SumOf(RowAmount(), Filter(InPeriod(c, last + 1, first - 1), table))
  {
    if |table| != 0 {
      var front, r := table[..|table| - 1], table[|table| - 1];
      PeriodsAdd(front, c, first, last);
      SumOfSnoc(RowAmount(), Filter(OfCustomer(c, first - 1), front), r);
      SumOfSnoc(RowAmount(), Filter(InPeriod(c, first, last), front), r);
      SumOfSnoc(RowAmount(), Filter(OfCustomer(c, last), front), r);
      SumOfSnoc(RowAmount(), Filter(InPeriod(c, last + 1, first - 1), front), r);
    }
  }

  /** A customer's rows dated before `day`, at their amounts. */
  function DatedBefore(c: int, day: int): Row -> int {
    (r: Row) => if r.customerId == c && r.entry.date < day then r.entry.amount else 0
  }

  predicate InStatement(r: Row, c: int, first: Option<int>, last: int) {
    r.customerId == c && r.entry.date <= last && (first.Some? ==> first.value <= r.entry.date)
  }

  lemma SettledBalanceIs(table: seq<Row>, c: int, asOf: int)
    ensures SettledBalance(table, c, asOf) == SumOf(DatedBefore(c, asOf + 1), table)
  {
    var own := Filter(OfCustomer(c, asOf), table);
    FilterMembers(OfCustomer(c, asOf), table);
    forall i | 0 <= i < |own| ensures RowAmount()(own[i]) == DatedBefore(c, asOf + 1)(own[i]) { assert own[i] in own; }
    SumOfAgree(RowAmount(), DatedBefore(c, asOf + 1), own);
    SumOfFilter(DatedBefore(c, asOf + 1), OfCustomer(c, asOf), table);
  }

  /**
   A statement opens with what the customer's rows before its first day add up to, closes with what those up to its
   last day add up to, and lists each row of the customer's in the period as often as the ledger holds it, in date order.
   */
  lemma StatementIsTheLedger(table: seq<Row>, c: int, first: Option<int>, last: int)
    ensures
      var s := CustomerStatement(table, c, first, last);
      && s.opening == (if first.Some? then SumOf(DatedBefore(c, first.value), table) else 0)
      && s.closing == SumOf(DatedBefore(c, last + 1), table)
      && (forall r :: multiset(s.entries)[r] == if InStatement(r, c, first, last) then multiset(table)[r] else 0)
      && forall i, j :: 0 <= i < j < |s.entries| ==>
           var (a, b) := (s.entries[i].entry, s.entries[j].entry); a.date < b.date || (a.date == b.date && a.pk <= b.pk)
  {
    var kept := if first.Some? then InPeriod(c, first.value, last) else OfCustomer(c, last);
    if first.Some? { SettledBalanceIs(table, c, first.value - 1); }
    SettledBalanceIs(table, c, last);
    RowOrdersAreTotal();
    OrderByAscending(RowByDate, Filter(kept, table));
    OrderByPermutes(RowByDate, Filter(kept, table));
    forall r ensures multiset(Filter(kept, table))[r] == if InStatement(r, c, first, last) then multiset(table)[r] else 0 {
      FilterMultiplicity(kept, table, r);
    }
  }

  /** Successive statements join: the second opens where the first closed, and together they read as the statement of the whole period. */
  lemma StatementsJoin(table: seq<Row>, c: int, first: Option<int>, last: int, later: int)
    requires last <= later && (first.Some? ==> first.value <= last + 1)
    ensures
      var one, two := CustomerStatement(table, c, first, last), CustomerStatement(table, c, Some(last + 1), later);
      var whole := CustomerStatement(table, c, first, later);
      two.opening == one.closing && whole == Statement(one.opening, one.entries + two.entries, two.closing)
  {
    var kept := if first.Some? then InPeriod(c, first.value, later) else OfCustomer(c, later);
    var early := if first.Some? then InPeriod(c, first.value, last) else OfCustomer(c, last);
    var upTo, after := (r: Row) => r.entry.date <= last, (r: Row) => r.entry.date > last;
    var rows := Filter(kept, table);
    RowOrdersAreTotal();
    OrderByAscending(RowByDate, rows);
    SplitAscending(upTo, after, RowByDate, OrderBy(RowByDate, rows));
    FilterOrderBy(upTo, RowByDate, RowByDate, rows);
    FilterOrderBy(after, RowByDate, RowByDate, rows);
    FilterTwice(kept, upTo, early, table);
    FilterTwice(kept, after, InPeriod(c, last + 1, later), table);
  }

  /** An inverted period lists nothing, yet its opening and closing figures can differ. */
  lemma InvertedPeriodFails()
    ensures exists table: seq<Row>, c, first, last ::
              var s := CustomerStatement(table, c, Some(first), last);
              s.opening + SumOf(RowAmount(), s.entries) != s.closing
  {
    var r := Row(1, Entry(1, 5, INVOICE, 100, "", INVOICE, Some(1)), None);
    var s := CustomerStatement([r], 1, Some(9), 2);
    StatementReconciles([r], 1, Some(9), 2);
    var gap := Filter(InPeriod(1, 3, 8), [r]);
    assert gap == Filter(InPeriod(1, 3, 8), [r][..0]) + [r];
    assert SumOf(RowAmount(), gap) == SumOf(RowAmount(), gap[..0]) + 100;
  }
}
