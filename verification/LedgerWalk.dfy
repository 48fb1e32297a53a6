/** The codes of both ledgers. The walk only ever compares them for equality. */
module Vocabulary {

  datatype Code =
    | INVOICE | CREDIT_NOTE | PAYMENT | OPENING | ADJUSTMENT | WRITE_OFF
    | GOODS_RECEIPT | DEBIT_NOTE | SUPPLIER_PAYMENT
    | BLANK                   // the empty source_document_type
    | OTHER(spelling: string) // any further code a third ledger might spell
}

/**
 The FIFO application walk: one algorithm over one party's ledger, for both ledgers.

 Amounts are whole paise and dates are day numbers. The imperative half (`AnnulledEntryIds`,
 `Walk` and the loops it calls) updates a dictionary, a set and a list of mutable debits exactly
 as the source does; the functional half says in closed form what they compute.
 */
module LedgerWalk {
  import opened Outcomes
  import opened Querysets
  import opened Sums
  import opened Vocabulary

  datatype Entry = Entry(
    pk: int,
    date: int,
    kind: Code,
    amount: int,
    narration: string,
    sourceType: Code,
    sourceId: Option<int>)

  datatype WalkPolicy = WalkPolicy(
    adjustmentType: Code,
    annullable: seq<Code>,
    reducingType: Code,
    targetType: Code)

  datatype OpenItem = OpenItem(
    entryId: int,
    date: int,
    kind: Code,
    document: string,
    original: int,
    outstanding: int,
    ageDays: int)

  datatype Position = Position(
    partyId: int,
    asOf: int,
    openItems: seq<OpenItem>,
    totalOutstanding: int,
    creditOnAccount: int,
    balance: int)

  // ------------------------------------------------------------------ 1. annul, declaratively

  /** The entry was created by the document it points at. */
  predicate CreatedBySource(e: Entry) {
    e.sourceId.Some? && e.kind == e.sourceType
  }

  /** The entry is an adjustment pointing at an annullable document. */
  predicate PointsBack(e: Entry, policy: WalkPolicy) {
    e.kind == policy.adjustmentType && e.sourceType in policy.annullable && e.sourceId.Some?
  }

  predicate SameDocument(a: Entry, b: Entry) {
    a.sourceType == b.sourceType && a.sourceId == b.sourceId
  }

  /** Of the entries a document created, `t` is the last: the one a dictionary keyed by document keeps. */
  predicate IsTarget(es: seq<Entry>, t: int) {
    && 0 <= t < |es|
    && CreatedBySource(es[t])
    && forall j :: t < j < |es| && CreatedBySource(es[j]) ==> !SameDocument(es[j], es[t])
  }

  predicate Offsets(es: seq<Entry>, policy: WalkPolicy, a: int, t: int) {
    && 0 <= a < |es|
    && 0 <= t < |es|
    && PointsBack(es[a], policy)
    && SameDocument(es[a], es[t])
    && es[a].amount + es[t].amount == 0
  }

  /** `a` annuls `t`: it is the first adjustment to point at that document and to cancel its amount. */
  predicate Annuls(es: seq<Entry>, policy: WalkPolicy, a: int, t: int) {
    && IsTarget(es, t)
    && Offsets(es, policy, a, t)
    && forall b :: 0 <= b < a ==> !Offsets(es, policy, b, t)
  }

  /** The keys of the pairs whose annuller is among the first `n` entries. */
  function AnnulledBefore(es: seq<Entry>, policy: WalkPolicy, n: int): set<int> {
    (set a, t | 0 <= a < |es| && a < n && 0 <= t < |es| && Annuls(es, policy, a, t) :: es[a].pk)
    + (set a, t | 0 <= a < |es| && a < n && 0 <= t < |es| && Annuls(es, policy, a, t) :: es[t].pk)
  }

  function Annulled(es: seq<Entry>, policy: WalkPolicy): set<int> {
    AnnulledBefore(es, policy, |es|)
  }

  /** The entries that stay in the walk. */
  function Live(es: seq<Entry>, policy: WalkPolicy): seq<Entry> {
    var gone := Annulled(es, policy);
    Filter((e: Entry) => e.pk !in gone, es)
  }

  // ------------------------------------------------------------------ 2-3. reduce, in closed form

  predicate IsDebit(e: Entry) { e.amount > 0 }

  function Debits(live: seq<Entry>): seq<Entry> { Filter(IsDebit, live) }

  /** Position of the last debit the document `id` created, or -1. */
  function DebitFor(debits: seq<Entry>, policy: WalkPolicy, id: int): (i: int)
    ensures -1 <= i < |debits|
    ensures i >= 0 ==> debits[i].kind == policy.targetType && debits[i].sourceId == Some(id)
    ensures forall j :: i < j < |debits| ==> debits[j].kind != policy.targetType || debits[j].sourceId != Some(id)
  {
    if |debits| == 0 then -1
    else
      var last := |debits| - 1;
      if debits[last].kind == policy.targetType && debits[last].sourceId == Some(id) then last
      else DebitFor(debits[..last], policy, id)
  }

  /** Position of the debit a reducing entry names, or -1 when it resolves to none. */
  function TargetOf(e: Entry, targets: map<int, int>, debits: seq<Entry>, policy: WalkPolicy): (i: int)
    ensures -1 <= i < |debits|
  {
    var id := if e.sourceId.Some? then e.sourceId.value else 0;
    if id in targets && targets[id] != 0 then DebitFor(debits, policy, targets[id]) else -1
  }

  /** What one entry credits against debit `i`; debit -1 collects the unresolvable ones. */
  function CreditTerm(targets: map<int, int>, debits: seq<Entry>, policy: WalkPolicy, i: int): Entry -> int {
    (e: Entry) =>
      if e.kind == policy.reducingType && TargetOf(e, targets, debits, policy) == i then Abs(e.amount) else 0
  }

  function CreditTo(live: seq<Entry>, targets: map<int, int>, debits: seq<Entry>, policy: WalkPolicy, i: int): int {
    SumOf(CreditTerm(targets, debits, policy, i), live)
  }

  /** What each debit is still worth after the credits that name it, floored at zero. */
  function Reduced(live: seq<Entry>, targets: map<int, int>, policy: WalkPolicy, n: nat): (r: seq<int>)
    requires n <= |live|
    ensures |r| == |Debits(live)|
    ensures forall i :: 0 <= i < |r| ==> r[i] >= 0
  {
    var ds := Debits(live);
    seq(|ds|, i requires 0 <= i < |ds| => Max(0, ds[i].amount - CreditTo(live[..n], targets, ds, policy, i)))
  }

  /** What the credits naming each debit exceed it by. */
  function Spilled(live: seq<Entry>, targets: map<int, int>, policy: WalkPolicy, n: nat): (r: seq<int>)
    requires n <= |live|
    ensures |r| == |Debits(live)|
    ensures forall i :: 0 <= i < |r| ==> r[i] >= 0
  {
    var ds := Debits(live);
    seq(|ds|, i requires 0 <= i < |ds| => Max(0, CreditTo(live[..n], targets, ds, policy, i) - ds[i].amount))
  }

  /** The pool after the first `n` reducing entries: unresolved credits and what has spilled. */
  function PoolAfter(live: seq<Entry>, targets: map<int, int>, policy: WalkPolicy, n: nat): int
    requires n <= |live|
  {
    CreditTo(live[..n], targets, Debits(live), policy, -1) + Total(Spilled(live, targets, policy, n))
  }

  function SettlingTerm(policy: WalkPolicy): Entry -> int {
    (e: Entry) => if e.amount < 0 && e.kind != policy.reducingType then Abs(e.amount) else 0
  }

  /** Everything that settles oldest first: payments and the like, unresolved notes, and the spill. */
  function Pool(live: seq<Entry>, targets: map<int, int>, policy: WalkPolicy): int {
    PoolAfter(live, targets, policy, |live|) + SumOf(SettlingTerm(policy), live)
  }

  // ------------------------------------------------------------------ 4. settle, in closed form

  /** Each remainder is what its prefix total exceeds the pool by, capped at its own worth. */
  function Settled(r: seq<int>, pool: int): (left: seq<int>)
    ensures |left| == |r|
  {
    if |r| == 0 then []
    else
      var n := |r| - 1;
      Settled(r[..n], pool) + [Min(r[n], Max(0, Total(r) - pool))]
  }

  /** The closed form, debit by debit. */
  lemma {:induction false} SettledAt(r: seq<int>, pool: int, i: nat)
    requires i < |r|
    ensures Settled(r, pool)[i] == Min(r[i], Max(0, Total(r[..i + 1]) - pool))
  {
    var n := |r| - 1;
    if i < n {
      SettledAt(r[..n], pool, i);
      assert r[..n][..i + 1] == r[..i + 1];
    } else {
      assert r[..i + 1] == r;
    }
  }

  /** What is left on each live debit once reductions and the pool have been applied. */
  function Remainders(live: seq<Entry>, targets: map<int, int>, policy: WalkPolicy): (left: seq<int>)
    ensures |left| == |Debits(live)|
  {
    Settled(Reduced(live, targets, policy, |live|), Pool(live, targets, policy))
  }

  function Unspent(r: seq<int>, pool: int): int { Max(0, pool - Total(r)) }

  // ------------------------------------------------------------------ 5. result

  function ItemOf(d: Entry, left: int, asOf: int): OpenItem {
    OpenItem(d.pk, d.date, d.kind, d.narration, d.amount, left, asOf - d.date)
  }

  function OpenItems(debits: seq<Entry>, left: seq<int>, asOf: int): seq<OpenItem>
    requires |debits| == |left|
  {
    if |debits| == 0 then []
    else
      var n := |debits| - 1;
      var front := OpenItems(debits[..n], left[..n], asOf);
      if left[n] > 0 then front + [ItemOf(debits[n], left[n], asOf)] else front
  }

  function OutstandingOf(): OpenItem -> int { (item: OpenItem) => item.outstanding }

  /** The position as a function of the entries that stay in the walk. */
  function PositionOf(partyId: int, asOf: int, live: seq<Entry>, targets: map<int, int>, policy: WalkPolicy): Position {
    var left := Remainders(live, targets, policy);
    var credit := Unspent(Reduced(live, targets, policy, |live|), Pool(live, targets, policy));
    Position(partyId, asOf, OpenItems(Debits(live), left, asOf), Total(left), credit, Total(left) - credit)
  }

  // ------------------------------------------------------------------ the imperative walk

  datatype DocumentKey = DocumentKey(sourceType: Code, id: int)

  function KeyOf(e: Entry): DocumentKey
    requires e.sourceId.Some?
  {
    DocumentKey(e.sourceType, e.sourceId.value)
  }

  /** Target `t` has not been claimed by any of the first `n` entries. */
  predicate Unclaimed(es: seq<Entry>, policy: WalkPolicy, t: int, n: int) {
    IsTarget(es, t) && forall a :: 0 <= a < n ==> !Offsets(es, policy, a, t)
  }

  /** The dictionary holds exactly the targets not yet claimed; `at` remembers where each sits. */
  ghost predicate Claims(es: seq<Entry>, policy: WalkPolicy, unclaimed: map<DocumentKey, Entry>, at: map<DocumentKey, int>, n: int) {
    && at.Keys == unclaimed.Keys
    && (forall k :: k in at ==> Unclaimed(es, policy, at[k], n) && KeyOf(es[at[k]]) == k && unclaimed[k] == es[at[k]])
    && (forall t :: Unclaimed(es, policy, t, n) ==> KeyOf(es[t]) in at && at[KeyOf(es[t])] == t)
  }

  method CollectTargets(es: seq<Entry>, ghost policy: WalkPolicy)
    returns (unclaimed: map<DocumentKey, Entry>, ghost at: map<DocumentKey, int>)
    ensures Claims(es, policy, unclaimed, at, 0)
  {
    unclaimed, at := map[], map[];
    for i := 0 to |es|
      invariant at.Keys == unclaimed.Keys
      invariant forall k :: k in at ==>
        && 0 <= at[k] < i && CreatedBySource(es[at[k]]) && KeyOf(es[at[k]]) == k && unclaimed[k] == es[at[k]]
        && forall j :: at[k] < j < i && CreatedBySource(es[j]) ==> KeyOf(es[j]) != k
      invariant forall j :: 0 <= j < i && CreatedBySource(es[j]) ==> KeyOf(es[j]) in at
    {
      if es[i].sourceId.Some? && es[i].kind == es[i].sourceType {
        unclaimed := unclaimed[KeyOf(es[i]) := es[i]];
        at := at[KeyOf(es[i]) := i];
      }
    }
  }

  /** The dictionary-and-set loop finds exactly the declared pairs. */
  method AnnulledEntryIds(es: seq<Entry>, policy: WalkPolicy) returns (annulled: set<int>)
    ensures annulled == Annulled(es, policy)
  {
    ghost var at;
    var unclaimed;
    unclaimed, at := CollectTargets(es, policy);
    annulled := {};
    for i := 0 to |es|
      invariant Claims(es, policy, unclaimed, at, i)
      invariant annulled == AnnulledBefore(es, policy, i)
    {
      var e := es[i];
      if e.kind == policy.adjustmentType && e.sourceType in policy.annullable && e.sourceId.Some? {
        var key := DocumentKey(e.sourceType, e.sourceId.value);
        if key in unclaimed && e.amount + unclaimed[key].amount == 0 {
          PairClaimed(es, policy, unclaimed, at, i);
          annulled := annulled + {e.pk} + {unclaimed[key].pk};
          unclaimed := unclaimed - {key};
          at := at - {key};
        } else {
          NothingClaimed(es, policy, unclaimed, at, i);
        }
      } else {
        NothingClaimed(es, policy, unclaimed, at, i);
      }
    }
  }

  lemma NothingClaimed(es: seq<Entry>, policy: WalkPolicy, unclaimed: map<DocumentKey, Entry>, at: map<DocumentKey, int>, i: int)
    requires 0 <= i < |es| && Claims(es, policy, unclaimed, at, i)
    requires PointsBack(es[i], policy) && KeyOf(es[i]) in unclaimed ==> es[i].amount + unclaimed[KeyOf(es[i])].amount != 0
    ensures Claims(es, policy, unclaimed, at, i + 1)
    ensures AnnulledBefore(es, policy, i + 1) == AnnulledBefore(es, policy, i)
  {
    forall t | Unclaimed(es, policy, t, i) ensures !Offsets(es, policy, i, t) {
      assert KeyOf(es[t]) in unclaimed && unclaimed[KeyOf(es[t])] == es[t];
    }
    forall t ensures !Annuls(es, policy, i, t) {
      assert Annuls(es, policy, i, t) ==> Unclaimed(es, policy, t, i);
    }
    forall t ensures Unclaimed(es, policy, t, i + 1) == Unclaimed(es, policy, t, i) {
      if Unclaimed(es, policy, t, i) {
        assert !Offsets(es, policy, i, t);
      }
    }
  }

  lemma PairClaimed(es: seq<Entry>, policy: WalkPolicy, unclaimed: map<DocumentKey, Entry>, at: map<DocumentKey, int>, i: int)
    requires 0 <= i < |es| && Claims(es, policy, unclaimed, at, i)
    requires PointsBack(es[i], policy) && KeyOf(es[i]) in unclaimed
    requires es[i].amount + unclaimed[KeyOf(es[i])].amount == 0
    ensures Claims(es, policy, unclaimed - {KeyOf(es[i])}, at - {KeyOf(es[i])}, i + 1)
    ensures AnnulledBefore(es, policy, i + 1) == AnnulledBefore(es, policy, i) + {es[i].pk} + {unclaimed[KeyOf(es[i])].pk}
  {
    var t := at[KeyOf(es[i])];
    assert KeyOf(es[t]) == KeyOf(es[i]) && SameDocument(es[i], es[t]) && Offsets(es, policy, i, t);
    OnePairClaimed(es, policy, i, t);
    ClaimLeaves(es, policy, i, t);
  }

  /** The claimed target leaves the dictionary, and no other does. */
  lemma ClaimLeaves(es: seq<Entry>, policy: WalkPolicy, i: int, t: int)
    requires 0 <= i < |es| && Unclaimed(es, policy, t, i) && Offsets(es, policy, i, t)
    ensures forall u :: Unclaimed(es, policy, u, i + 1) <==> Unclaimed(es, policy, u, i) && u != t
    ensures forall u :: Unclaimed(es, policy, u, i) && u != t ==> KeyOf(es[u]) != KeyOf(es[i])
  {
    forall u | Unclaimed(es, policy, u, i) && u != t
      ensures KeyOf(es[u]) != KeyOf(es[i]) && Unclaimed(es, policy, u, i + 1)
    {
      assert !SameDocument(es[u], es[t]);
      assert !Offsets(es, policy, i, u);
    }
    assert !Unclaimed(es, policy, t, i + 1);
  }

  lemma OnePairClaimed(es: seq<Entry>, policy: WalkPolicy, i: int, t: int)
    requires 0 <= i < |es| && Annuls(es, policy, i, t)
    ensures AnnulledBefore(es, policy, i + 1) == AnnulledBefore(es, policy, i) + {es[i].pk} + {es[t].pk}
  {
    var more := AnnulledBefore(es, policy, i + 1);
    assert es[i].pk in more && es[t].pk in more;
    forall u | Annuls(es, policy, i, u) ensures u == t {
      assert SameDocument(es[u], es[t]);
      if u < t { assert false; } else if t < u { assert false; }
    }
  }

  /** One open item while the walk runs. */
  class Debit {
    const entryId: int
    const date: int
    const kind: Code
    const narration: string
    const sourceId: Option<int>
    const original: int
    var remaining: int

    constructor (e: Entry)
      ensures Tracks(e) && remaining == e.amount
    {
      entryId, date, kind, narration := e.pk, e.date, e.kind, e.narration;
      sourceId, original, remaining := e.sourceId, e.amount, e.amount;
    }

    ghost predicate Tracks(e: Entry) {
      && entryId == e.pk && date == e.date && kind == e.kind && narration == e.narration
      && sourceId == e.sourceId && original == e.amount
    }
  }

  /** `debits` are distinct objects tracking `ds`, with `left` still open on them. */
  ghost predicate Holding(debits: seq<Debit>, ds: seq<Entry>, left: seq<int>)
    reads debits
  {
    && |debits| == |ds| == |left|
    && (forall i, j :: 0 <= i < j < |debits| ==> debits[i] != debits[j])
    && (forall i :: 0 <= i < |debits| ==> debits[i].Tracks(ds[i]) && debits[i].remaining == left[i])
  }

  function Amounts(ds: seq<Entry>): (s: seq<int>)
    ensures |s| == |ds|
  {
    seq(|ds|, i requires 0 <= i < |ds| => ds[i].amount)
  }

  method OpenDebits(live: seq<Entry>) returns (debits: seq<Debit>)
    ensures forall d :: d in debits ==> fresh(d)
    ensures Holding(debits, Debits(live), Amounts(Debits(live)))
  {
    debits := [];
    for i := 0 to |live|
      invariant forall d :: d in debits ==> fresh(d)
      invariant Holding(debits, Debits(live[..i]), Amounts(Debits(live[..i])))
    {
      assert live[..i + 1] == live[..i] + [live[i]];
      FilterSnoc(IsDebit, live[..i], live[i]);
      if live[i].amount > 0 {
        var d := new Debit(live[i]);
        debits := debits + [d];
      }
    }
    assert live[..|live|] == live;
  }

  method IndexByTarget(debits: seq<Debit>, policy: WalkPolicy, ghost ds: seq<Entry>) returns (byTarget: map<int, Debit>)
    requires |debits| == |ds| && forall i :: 0 <= i < |ds| ==> debits[i].Tracks(ds[i])
    ensures Indexed(byTarget, debits, ds, policy)
  {
    byTarget := map[];
    for i := 0 to |debits|
      invariant forall id :: id in byTarget <==> DebitFor(ds[..i], policy, id) >= 0
      invariant forall id :: id in byTarget ==> byTarget[id] == debits[DebitFor(ds[..i], policy, id)]
    {
      assert ds[..i + 1][..i] == ds[..i];
      if debits[i].kind == policy.targetType && debits[i].sourceId.Some? {
        byTarget := byTarget[debits[i].sourceId.value := debits[i]];
      }
    }
    assert ds[..|debits|] == ds;
  }

  lemma CreditStep(live: seq<Entry>, targets: map<int, int>, policy: WalkPolicy, n: nat, i: int)
    requires n < |live|
    ensures
      var ds := Debits(live);
      CreditTo(live[..n + 1], targets, ds, policy, i)
      == CreditTo(live[..n], targets, ds, policy, i)
         + if live[n].kind == policy.reducingType && TargetOf(live[n], targets, ds, policy) == i then Abs(live[n].amount) else 0
  {
    assert live[..n + 1] == live[..n] + [live[n]];
    SumOfSnoc(CreditTerm(targets, Debits(live), policy, i), live[..n], live[n]);
  }

  /** An entry that names no debit changes no debit. */
  lemma NoDebitReduced(live: seq<Entry>, targets: map<int, int>, policy: WalkPolicy, n: nat)
    requires n < |live|
    requires live[n].kind != policy.reducingType || TargetOf(live[n], targets, Debits(live), policy) == -1
    ensures Reduced(live, targets, policy, n + 1) == Reduced(live, targets, policy, n)
    ensures Spilled(live, targets, policy, n + 1) == Spilled(live, targets, policy, n)
  {
    forall i | 0 <= i < |Debits(live)|
      ensures CreditTo(live[..n + 1], targets, Debits(live), policy, i) == CreditTo(live[..n], targets, Debits(live), policy, i)
    {
      CreditStep(live, targets, policy, n, i);
    }
  }

  /** A credit against debit `t` raises that debit's credits and no other's. */
  lemma CreditsMove(live: seq<Entry>, targets: map<int, int>, policy: WalkPolicy, n: nat, t: nat)
    requires n < |live| && live[n].kind == policy.reducingType
    requires TargetOf(live[n], targets, Debits(live), policy) == t
    ensures forall i :: 0 <= i < |Debits(live)| ==>
              CreditTo(live[..n + 1], targets, Debits(live), policy, i)
              == CreditTo(live[..n], targets, Debits(live), policy, i) + if i == t then Abs(live[n].amount) else 0
  {
    forall i | 0 <= i < |Debits(live)|
      ensures CreditTo(live[..n + 1], targets, Debits(live), policy, i)
              == CreditTo(live[..n], targets, Debits(live), policy, i) + if i == t then Abs(live[n].amount) else 0
    {
      CreditStep(live, targets, policy, n, i);
    }
  }

  /** It takes off what the debit can bear. */
  lemma DebitReduced(live: seq<Entry>, targets: map<int, int>, policy: WalkPolicy, n: nat, t: nat)
    requires n < |live| && live[n].kind == policy.reducingType
    requires TargetOf(live[n], targets, Debits(live), policy) == t
    ensures
      var r := Reduced(live, targets, policy, n);
      Reduced(live, targets, policy, n + 1) == r[t := r[t] - Min(Abs(live[n].amount), r[t])]
  {
    CreditsMove(live, targets, policy, n, t);
  }

  /** And spills the rest into the pool. */
  lemma PoolTakesTheSpill(live: seq<Entry>, targets: map<int, int>, policy: WalkPolicy, n: nat, t: nat)
    requires n < |live| && live[n].kind == policy.reducingType
    requires TargetOf(live[n], targets, Debits(live), policy) == t
    ensures
      var r := Reduced(live, targets, policy, n);
      PoolAfter(live, targets, policy, n + 1) == PoolAfter(live, targets, policy, n) + Abs(live[n].amount) - Min(Abs(live[n].amount), r[t])
  {
    var r, s := Reduced(live, targets, policy, n), Spilled(live, targets, policy, n);
    var x := s[t] + Abs(live[n].amount) - Min(Abs(live[n].amount), r[t]);
    CreditsMove(live, targets, policy, n, t);
    assert Spilled(live, targets, policy, n + 1) == s[t := x];
    TotalUpdate(s, t, x);
    CreditStep(live, targets, policy, n, -1);
  }

  /** A credit that names no debit goes to the pool whole. */
  lemma PoolTakesTheUnresolved(live: seq<Entry>, targets: map<int, int>, policy: WalkPolicy, n: nat)
    requires n < |live| && live[n].kind == policy.reducingType && TargetOf(live[n], targets, Debits(live), policy) == -1
    ensures PoolAfter(live, targets, policy, n + 1) == PoolAfter(live, targets, policy, n) + Abs(live[n].amount)
    ensures Reduced(live, targets, policy, n + 1) == Reduced(live, targets, policy, n)
  {
    NoDebitReduced(live, targets, policy, n);
    CreditStep(live, targets, policy, n, -1);
  }

  /** `debit.remaining -= applied`, seen through the whole list. */
  method TakeOff(debits: seq<Debit>, d: Debit, applied: int, ghost ds: seq<Entry>, ghost left: seq<int>, ghost t: nat)
    requires Holding(debits, ds, left) && t < |debits| && debits[t] == d
    modifies d
    ensures Holding(debits, ds, left[t := left[t] - applied])
  {
    d.remaining := d.remaining - applied;
  }

  /** `byTarget` is the dictionary from target document to the debit it created. */
  ghost predicate Indexed(byTarget: map<int, Debit>, debits: seq<Debit>, ds: seq<Entry>, policy: WalkPolicy) {
    && |debits| == |ds|
    && (forall id :: id in byTarget <==> DebitFor(ds, policy, id) >= 0)
    && (forall id :: id in byTarget ==> byTarget[id] == debits[DebitFor(ds, policy, id)])
  }

  /** One reducing entry against the debit it names, or into the pool when it names none. */
  method ReduceOne(live: seq<Entry>, targets: map<int, int>, policy: WalkPolicy, n: nat,
                   debits: seq<Debit>, byTarget: map<int, Debit>, pool: int)
    returns (pool': int)
    requires n < |live| && live[n].kind == policy.reducingType
    requires Holding(debits, Debits(live), Reduced(live, targets, policy, n))
    requires Indexed(byTarget, debits, Debits(live), policy)
    requires pool == PoolAfter(live, targets, policy, n)
    modifies set d | d in debits
    ensures Holding(debits, Debits(live), Reduced(live, targets, policy, n + 1))
    ensures pool' == PoolAfter(live, targets, policy, n + 1)
  {
    var e := live[n];
    var id := if e.sourceId.Some? then e.sourceId.value else 0;
    var credited := Abs(e.amount);
    ghost var t := TargetOf(e, targets, Debits(live), policy);
    if id !in targets || targets[id] == 0 || targets[id] !in byTarget {
      assert t == -1;
      PoolTakesTheUnresolved(live, targets, policy, n);
      pool' := pool + credited;
    } else {
      var d := byTarget[targets[id]];
      assert t >= 0 && debits[t] == d;
      ghost var r := Reduced(live, targets, policy, n);
      DebitReduced(live, targets, policy, n, t);
      PoolTakesTheSpill(live, targets, policy, n, t);
      var applied := Min(credited, d.remaining);
      assert applied == Min(credited, r[t]);
      TakeOff(debits, d, applied, Debits(live), r, t);
      pool' := pool + (credited - applied);
    }
  }

  method Reduce(live: seq<Entry>, targets: map<int, int>, policy: WalkPolicy, debits: seq<Debit>, byTarget: map<int, Debit>)
    returns (pool: int)
    requires Holding(debits, Debits(live), Amounts(Debits(live)))
    requires Indexed(byTarget, debits, Debits(live), policy)
    modifies set d | d in debits
    ensures Holding(debits, Debits(live), Reduced(live, targets, policy, |live|))
    ensures pool == PoolAfter(live, targets, policy, |live|)
  {
    pool := 0;
    NothingReducedYet(live, targets, policy);
    for i := 0 to |live|
      invariant Holding(debits, Debits(live), Reduced(live, targets, policy, i))
      invariant pool == PoolAfter(live, targets, policy, i)
    {
      if live[i].kind == policy.reducingType {
        pool := ReduceOne(live, targets, policy, i, debits, byTarget, pool);
      } else {
        NoDebitReduced(live, targets, policy, i);
        CreditStep(live, targets, policy, i, -1);
      }
    }
  }

  lemma NothingReducedYet(live: seq<Entry>, targets: map<int, int>, policy: WalkPolicy)
    ensures Reduced(live, targets, policy, 0) == Amounts(Debits(live))
    ensures Total(Spilled(live, targets, policy, 0)) == 0
    ensures CreditTo(live[..0], targets, Debits(live), policy, -1) == 0
  {
    FilterMembers(IsDebit, live);
    var ds := Debits(live);
    forall i | 0 <= i < |ds| ensures ds[i].amount > 0 {
      assert ds[i] in ds;
    }
    AllZero(Spilled(live, targets, policy, 0));
  }

  lemma {:induction false} AllZero(s: seq<int>)
    requires forall i :: 0 <= i < |s| ==> s[i] == 0
    ensures Total(s) == 0
  {
    if |s| != 0 {
      AllZero(s[..|s| - 1]);
    }
  }

  method SumSettling(live: seq<Entry>, policy: WalkPolicy) returns (sum: int)
    ensures sum == SumOf(SettlingTerm(policy), live)
  {
    sum := 0;
    for i := 0 to |live|
      invariant sum == SumOf(SettlingTerm(policy), live[..i])
    {
      assert live[..i + 1] == live[..i] + [live[i]];
      SumOfSnoc(SettlingTerm(policy), live[..i], live[i]);
      if live[i].amount < 0 && live[i].kind != policy.reducingType {
        sum := sum + Abs(live[i].amount);
      }
    }
    assert live[..|live|] == live;
  }

  /** The oldest-first loop, stopping as soon as the pool is spent, computes the closed form. */
  method SettleOldestFirst(debits: seq<Debit>, initialPool: int, ghost ds: seq<Entry>, ghost r: seq<int>, ghost left: seq<int>)
    returns (pool: int)
    requires Holding(debits, ds, r) && left == Settled(r, initialPool)
    requires initialPool >= 0 && forall i :: 0 <= i < |r| ==> r[i] >= 0
    modifies set d | d in debits
    ensures Holding(debits, ds, left)
    ensures pool == Unspent(r, initialPool)
  {
    pool := initialPool;
    ghost var now := r;
    assert r[..0] == [] && r[..|r|] == r;
    var i := 0;
    while i < |debits|
      invariant 0 <= i <= |debits|
      invariant Holding(debits, ds, now)
      invariant forall j :: 0 <= j < |r| ==> now[j] == if j < i then left[j] else r[j]
      invariant pool == Max(0, initialPool - Total(r[..i]))
    {
      if pool <= 0 {
        break;
      }
      SettleStep(r, initialPool, i);
      var applied := Min(pool, debits[i].remaining);
      TakeOff(debits, debits[i], applied, ds, now, i);
      now := now[i := now[i] - applied];
      pool := pool - applied;
      i := i + 1;
    }
    if i < |debits| {
      Untouched(r, initialPool, i);
    }
    assert now == left;
  }

  /** Settling one more debit: it takes what the pool still holds, up to its worth. */
  lemma SettleStep(r: seq<int>, pool: int, i: nat)
    requires i < |r| && pool >= 0 && forall k :: 0 <= k < |r| ==> r[k] >= 0
    ensures
      var held := Max(0, pool - Total(r[..i]));
      && Settled(r, pool)[i] == r[i] - Min(held, r[i])
      && Max(0, pool - Total(r[..i + 1])) == held - Min(held, r[i])
  {
    TotalPrefix(r, i);
    SettledAt(r, pool, i);
  }

  /** Once the pool is spent, the remaining debits keep their whole worth. */
  lemma Untouched(r: seq<int>, pool: int, i: nat)
    requires i <= |r| && forall k :: 0 <= k < |r| ==> r[k] >= 0
    requires pool <= Total(r[..i])
    ensures forall j :: i <= j < |r| ==> Settled(r, pool)[j] == r[j]
    ensures Unspent(r, pool) == 0
  {
    forall j | i <= j < |r| ensures Settled(r, pool)[j] == r[j] {
      TotalMonotone(r, i, j);
      TotalPrefix(r, j);
      SettledAt(r, pool, j);
    }
    TotalMonotone(r, i, |r|);
    assert r[..|r|] == r;
  }

  method CollectItems(debits: seq<Debit>, asOf: int, ghost ds: seq<Entry>, ghost left: seq<int>)
    returns (items: seq<OpenItem>, total: int)
    requires Holding(debits, ds, left)
    requires forall i :: 0 <= i < |left| ==> left[i] >= 0
    ensures items == OpenItems(ds, left, asOf)
    ensures total == Total(left)
  {
    items, total := [], 0;
    for i := 0 to |debits|
      invariant items == OpenItems(ds[..i], left[..i], asOf)
      invariant total == Total(left[..i])
    {
      assert ds[..i + 1][..i] == ds[..i] && left[..i + 1][..i] == left[..i];
      TotalPrefix(left, i);
      var d := debits[i];
      if d.remaining > 0 {
        items := items + [OpenItem(d.entryId, d.date, d.kind, d.narration, d.original, d.remaining, asOf - d.date)];
        total := total + d.remaining;
      }
    }
    assert ds[..|debits|] == ds && left[..|debits|] == left;
  }

  lemma {:induction false} PoolNonNegative(live: seq<Entry>, targets: map<int, int>, policy: WalkPolicy)
    ensures Pool(live, targets, policy) >= 0
  {
    assert live[..|live|] == live;
    SumOfNonNegative(CreditTerm(targets, Debits(live), policy, -1), live);
    SumOfNonNegative(SettlingTerm(policy), live);
    TotalNonNegative(Spilled(live, targets, policy, |live|));
  }

  /** The walk computes the closed-form position of the entries that stay in it. */
  method Walk(partyId: int, asOf: int, entries: seq<Entry>, targets: map<int, int>, policy: WalkPolicy)
    returns (p: Position)
    ensures p == PositionOf(partyId, asOf, Live(entries, policy), targets, policy)
  {
    var annulled := AnnulledEntryIds(entries, policy);
    var live := Filter((e: Entry) => e.pk !in annulled, entries);
    p := WalkLive(partyId, asOf, live, targets, policy);
  }

  /** Steps 2 to 4: open the debits, reduce the named ones, settle the rest oldest first. */
  method ApplyCredits(live: seq<Entry>, targets: map<int, int>, policy: WalkPolicy) returns (debits: seq<Debit>, pool: int)
    ensures Holding(debits, Debits(live), Remainders(live, targets, policy))
    ensures pool == Unspent(Reduced(live, targets, policy, |live|), Pool(live, targets, policy))
  {
    debits := OpenDebits(live);
    var byTarget := IndexByTarget(debits, policy, Debits(live));
    pool := Reduce(live, targets, policy, debits, byTarget);
    var settling := SumSettling(live, policy);
    pool := pool + settling;
    PoolNonNegative(live, targets, policy);
    pool := SettleOldestFirst(debits, pool, Debits(live), Reduced(live, targets, policy, |live|), Remainders(live, targets, policy));
  }

  method WalkLive(partyId: int, asOf: int, live: seq<Entry>, targets: map<int, int>, policy: WalkPolicy)
    returns (p: Position)
    ensures p == PositionOf(partyId, asOf, live, targets, policy)
  {
    var debits, pool := ApplyCredits(live, targets, policy);
    PoolNonNegative(live, targets, policy);
    SettledBounds(Reduced(live, targets, policy, |live|), Pool(live, targets, policy));
    var items, total := CollectItems(debits, asOf, Debits(live), Remainders(live, targets, policy));
    p := Position(partyId, asOf, items, total, pool, total - pool);
  }

  /** No remainder is negative or exceeds what the debit was worth. */
  lemma SettledBounds(r: seq<int>, pool: int)
    requires pool >= 0 && forall i :: 0 <= i < |r| ==> r[i] >= 0
    ensures forall i :: 0 <= i < |r| ==> 0 <= Settled(r, pool)[i] <= r[i]
  {
    forall i | 0 <= i < |r| ensures 0 <= Settled(r, pool)[i] <= r[i] {
      SettledAt(r, pool, i);
    }
  }
}
