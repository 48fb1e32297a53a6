/** What the walk promises about every ledger, and when the promise holds. */
module WalkLaws {
  import opened Outcomes
  import opened Querysets
  import opened Sums
  import opened Vocabulary
  import opened LedgerWalk

  // ------------------------------------------------------------------ the shape of a settlement

  /** Oldest first: a debit is touched only when every earlier one is fully settled. */
  ghost predicate OldestFirst(r: seq<int>, left: seq<int>)
    requires |r| == |left|
  {
    forall i, j :: 0 <= i < j < |r| ==> left[i] == 0 || left[j] == r[j]
  }

  ghost predicate Bounded(r: seq<int>, left: seq<int>)
    requires |r| == |left|
  {
    forall i :: 0 <= i < |r| ==> 0 <= left[i] <= r[i]
  }

  /** The closed form settles a prefix in full, touches at most one more debit, and no later one. */
  lemma SettledIsOldestFirst(r: seq<int>, pool: int)
    requires pool >= 0 && forall i :: 0 <= i < |r| ==> r[i] >= 0
    ensures Bounded(r, Settled(r, pool)) && OldestFirst(r, Settled(r, pool))
  {
    SettledBounds(r, pool);
    forall i, j | 0 <= i < j < |r| ensures Settled(r, pool)[i] == 0 || Settled(r, pool)[j] == r[j] {
      SettledAt(r, pool, i);
      SettledAt(r, pool, j);
      TotalMonotone(r, i + 1, j);
      TotalPrefix(r, j);
    }
  }

  /** What stays open is what the debits exceed the pool by. */
  lemma {:induction false} SettledTotal(r: seq<int>, pool: int)
    requires pool >= 0 && forall i :: 0 <= i < |r| ==> r[i] >= 0
    ensures Total(Settled(r, pool)) == Max(0, Total(r) - pool)
  {
    if |r| != 0 {
      var front := r[..|r| - 1];
      SettledTotal(front, pool);
      TotalNonNegative(front);
      TotalSnoc(Settled(front, pool), Min(r[|r| - 1], Max(0, Total(r) - pool)));
    }
  }

  /** Bounds, total and oldest-first order leave exactly one answer: the closed form. */
  lemma {:induction false} OldestFirstIsUnique(r: seq<int>, pool: int, left: seq<int>)
    requires pool >= 0 && |left| == |r| && forall i :: 0 <= i < |r| ==> r[i] >= 0
    requires Bounded(r, left) && OldestFirst(r, left)
    requires Total(left) == Max(0, Total(r) - pool)
    ensures left == Settled(r, pool)
  {
    if |r| != 0 {
      var n := |r| - 1;
      var front, leftFront := r[..n], left[..n];
      OldestFirstFront(r, left);
      LastRemainder(Total(front), r[n], Total(leftFront), left[n], pool);
      OldestFirstIsUnique(front, pool, leftFront);
      assert left == leftFront + [left[n]];
    }
  }

  lemma OldestFirstFront(r: seq<int>, left: seq<int>)
    requires |r| == |left| > 0 && Bounded(r, left) && OldestFirst(r, left)
    ensures
      var n := |r| - 1;
      && Bounded(r[..n], left[..n]) && OldestFirst(r[..n], left[..n])
      && 0 <= Total(left[..n]) <= Total(r[..n])
      && (left[n] == r[n] || Total(left[..n]) == 0)
  {
    var n := |r| - 1;
    BoundedTotal(r[..n], left[..n]);
    if left[n] != r[n] {
      AllZero(left[..n]);
    }
  }

  lemma LastRemainder(worth: int, last: int, leftBefore: int, leftLast: int, pool: int)
    requires 0 <= leftLast <= last && 0 <= leftBefore <= worth && pool >= 0
    requires leftBefore + leftLast == Max(0, worth + last - pool)
    requires leftLast == last || leftBefore == 0
    ensures leftBefore == Max(0, worth - pool) && leftLast == Min(last, Max(0, worth + last - pool))
  {
  }

  lemma {:induction false} BoundedTotal(r: seq<int>, left: seq<int>)
    requires |r| == |left| && Bounded(r, left)
    ensures 0 <= Total(left) <= Total(r)
  {
    if |r| != 0 {
      BoundedTotal(r[..|r| - 1], left[..|r| - 1]);
    }
  }

  // ------------------------------------------------------------------ conservation

  function AmountOf(): Entry -> int { (e: Entry) => e.amount }

  /** Reducing entries with the wrong sign: counted as a debit and as a credit. */
  function WrongSign(policy: WalkPolicy): Entry -> int {
    (e: Entry) => if e.kind == policy.reducingType && e.amount > 0 then e.amount else 0
  }

  function ReducingAbs(policy: WalkPolicy): Entry -> int {
    (e: Entry) => if e.kind == policy.reducingType then Abs(e.amount) else 0
  }

  function PositivePart(): Entry -> int { (e: Entry) => if e.amount > 0 then e.amount else 0 }

  function CreditsBy(es: seq<Entry>, targets: map<int, int>, ds: seq<Entry>, policy: WalkPolicy): (credits: seq<int>)
    ensures |credits| == |ds|
    ensures forall i :: 0 <= i < |ds| ==> credits[i] == CreditTo(es, targets, ds, policy, i)
  {
    seq(|ds|, i requires 0 <= i < |ds| => CreditTo(es, targets, ds, policy, i))
  }

  /** Every reducing entry is credited against exactly one debit, or is unresolved. */
  lemma {:induction false} CreditsPartition(es: seq<Entry>, targets: map<int, int>, ds: seq<Entry>, policy: WalkPolicy)
    ensures Total(CreditsBy(es, targets, ds, policy)) + CreditTo(es, targets, ds, policy, -1) == SumOf(ReducingAbs(policy), es)
  {
    var credits := CreditsBy(es, targets, ds, policy);
    if |es| == 0 {
      AllZero(credits);
    } else {
      var front, e := es[..|es| - 1], es[|es| - 1];
      CreditsPartition(front, targets, ds, policy);
      CreditsGrow(es, targets, ds, policy);
      var t := TargetOf(e, targets, ds, policy);
      if e.kind == policy.reducingType && t >= 0 {
        var before := CreditsBy(front, targets, ds, policy);
        TotalUpdate(before, t, before[t] + Abs(e.amount));
      }
    }
  }

  lemma CreditsGrow(es: seq<Entry>, targets: map<int, int>, ds: seq<Entry>, policy: WalkPolicy)
    requires |es| > 0
    ensures
      var e, before := es[|es| - 1], CreditsBy(es[..|es| - 1], targets, ds, policy);
      var t := TargetOf(e, targets, ds, policy);
      CreditsBy(es, targets, ds, policy)
      == if e.kind == policy.reducingType && t >= 0 then before[t := before[t] + Abs(e.amount)] else before
  {
    var front, e := es[..|es| - 1], es[|es| - 1];
    forall i | 0 <= i < |ds|
      ensures CreditTo(es, targets, ds, policy, i) == CreditTo(front, targets, ds, policy, i) + CreditTerm(targets, ds, policy, i)(e)
    {
    }
  }

  /** Reduced worth less spill is worth less credits, debit by debit and in total. */
  lemma ReducedTotal(live: seq<Entry>, targets: map<int, int>, policy: WalkPolicy)
    ensures Total(Reduced(live, targets, policy, |live|)) + Total(CreditsBy(live, targets, Debits(live), policy))
            == Total(Amounts(Debits(live))) + Total(Spilled(live, targets, policy, |live|))
  {
    var r, s, a := Reduced(live, targets, policy, |live|), Spilled(live, targets, policy, |live|), Amounts(Debits(live));
    var credits := CreditsBy(live, targets, Debits(live), policy);
    assert live[..|live|] == live;
    var sum := seq(|a|, i requires 0 <= i < |a| => a[i] + s[i]);
    forall i | 0 <= i < |a| ensures sum[i] == r[i] + credits[i] {
      FloorAndSpill(a[i], credits[i]);
    }
    TotalPlus(r, credits, sum);
    TotalPlus(a, s, sum);
  }

  lemma FloorAndSpill(worth: int, credited: int)
    ensures Max(0, worth - credited) + credited == worth + Max(0, credited - worth)
  {
  }

  lemma {:induction false} DebitTotal(live: seq<Entry>)
    ensures Total(Amounts(Debits(live))) == SumOf(PositivePart(), live)
  {
    if |live| != 0 {
      var front, e := live[..|live| - 1], live[|live| - 1];
      DebitTotal(front);
      if e.amount > 0 {
        assert Amounts(Debits(live)) == Amounts(Debits(front)) + [e.amount];
        TotalSnoc(Amounts(Debits(front)), e.amount);
      }
    }
  }

  /** Debits less everything that reduces or settles is the ledger sum, but for wrong signs. */
  lemma {:induction false} SignsBalance(live: seq<Entry>, policy: WalkPolicy)
    ensures SumOf(PositivePart(), live) - SumOf(ReducingAbs(policy), live) - SumOf(SettlingTerm(policy), live)
            == SumOf(AmountOf(), live) - SumOf(WrongSign(policy), live)
  {
    if |live| != 0 {
      SignsBalance(live[..|live| - 1], policy);
    }
  }

  /** Worth after reductions, less the pool, is the sum of the live entries. */
  lemma LiveConservation(live: seq<Entry>, targets: map<int, int>, policy: WalkPolicy)
    ensures Total(Reduced(live, targets, policy, |live|)) - Pool(live, targets, policy)
            == SumOf(AmountOf(), live) - SumOf(WrongSign(policy), live)
  {
    CreditsPartition(live, targets, Debits(live), policy);
    ReducedTotal(live, targets, policy);
    DebitTotal(live);
    SignsBalance(live, policy);
    assert live[..|live|] == live;
  }

  /** Primary keys are distinct. */
  ghost predicate DistinctKeys(es: seq<Entry>) {
    forall i, j :: 0 <= i < j < |es| ==> es[i].pk != es[j].pk
  }

  lemma {:induction false} FilterKeepsKeys(keep: Entry -> bool, es: seq<Entry>)
    requires DistinctKeys(es)
    ensures DistinctKeys(Filter(keep, es))
  {
    if |es| != 0 {
      var front := es[..|es| - 1];
      FilterKeepsKeys(keep, front);
      FilterMembers(keep, front);
      forall e | e in Filter(keep, front) ensures e.pk != es[|es| - 1].pk { assert e in front; }
    }
  }

  /** The policy never lets an adjustment annul an adjustment. */
  ghost predicate SoundPolicy(policy: WalkPolicy) {
    policy.adjustmentType !in policy.annullable
  }

  /** An annulled entry is one of a matched pair of the ledger's. */
  lemma AnnulledPair(es: seq<Entry>, policy: WalkPolicy, e: Entry) returns (a: Entry, t: Entry)
    requires DistinctKeys(es) && e in es && e.pk in Annulled(es, policy)
    ensures a in es && t in es && (e == a || e == t) && PointsBack(a, policy) && CreatedBySource(t) && SameDocument(a, t)
  {
    var i, j :| 0 <= i < |es| && 0 <= j < |es| && Annuls(es, policy, i, j) && (es[i].pk == e.pk || es[j].pk == e.pk);
    var k :| 0 <= k < |es| && es[k] == e;
    assert k == i || k == j;
    a, t := es[i], es[j];
  }

  function GoneAmount(gone: set<int>): Entry -> int {
    (e: Entry) => if e.pk in gone then e.amount else 0
  }

  /** The matched pairs are disjoint couples of distinct entries, each summing to zero. */
  lemma AnnulmentsAreDisjointPairs(es: seq<Entry>, policy: WalkPolicy, a: int, t: int, a': int, t': int)
    requires SoundPolicy(policy) && Annuls(es, policy, a, t) && Annuls(es, policy, a', t')
    ensures es[a].amount + es[t].amount == 0
    ensures a != t && a != t' && a' != t
    ensures a == a' <==> t == t'
  {
    if a == a' {
      assert SameDocument(es[t], es[t']);
    }
  }

  lemma {:induction false} GoneOneMore(es: seq<Entry>, gone: set<int>, k: int)
    requires DistinctKeys(es) && 0 <= k < |es| && es[k].pk !in gone
    ensures SumOf(GoneAmount(gone + {es[k].pk}), es) == SumOf(GoneAmount(gone), es) + es[k].amount
  {
    var n := |es| - 1;
    var front := es[..n];
    if k == n {
      SumOfAgree(GoneAmount(gone + {es[k].pk}), GoneAmount(gone), front);
    } else {
      assert front[k] == es[k];
      GoneOneMore(front, gone, k);
    }
  }

  /** What leaves the walk sums to zero. */
  lemma {:induction false} AnnulledSumsToZero(es: seq<Entry>, policy: WalkPolicy, n: nat)
    requires DistinctKeys(es) && SoundPolicy(policy) && n <= |es|
    ensures SumOf(GoneAmount(AnnulledBefore(es, policy, n)), es) == 0
  {
    if n == 0 {
      SumOfAgree(GoneAmount(AnnulledBefore(es, policy, 0)), (e: Entry) => 0, es);
      SumOfZero(es);
    } else {
      var i := n - 1;
      var gone := AnnulledBefore(es, policy, i);
      AnnulledSumsToZero(es, policy, i);
      if t :| 0 <= t < |es| && Annuls(es, policy, i, t) {
        OnePairClaimed(es, policy, i, t);
        PairIsNew(es, policy, i, t);
        GoneOneMore(es, gone, i);
        GoneOneMore(es, gone + {es[i].pk}, t);
      } else {
        assert AnnulledBefore(es, policy, n) == gone;
      }
    }
  }

  lemma {:induction false} SumOfZero(es: seq<Entry>)
    ensures SumOf((e: Entry) => 0, es) == 0
  {
    if |es| != 0 {
      SumOfZero(es[..|es| - 1]);
    }
  }

  lemma PairIsNew(es: seq<Entry>, policy: WalkPolicy, i: int, t: int)
    requires DistinctKeys(es) && SoundPolicy(policy) && Annuls(es, policy, i, t)
    ensures es[i].pk !in AnnulledBefore(es, policy, i) && es[t].pk !in AnnulledBefore(es, policy, i) + {es[i].pk}
  {
    forall a, u | Annuls(es, policy, a, u) && a < i
      ensures es[a].pk != es[i].pk && es[a].pk != es[t].pk && es[u].pk != es[i].pk && es[u].pk != es[t].pk
    {
      AnnulmentsAreDisjointPairs(es, policy, a, u, i, t);
    }
    AnnulmentsAreDisjointPairs(es, policy, i, t, i, t);
  }

  function KeptAmount(gone: set<int>): Entry -> int {
    (e: Entry) => if e.pk in gone then 0 else e.amount
  }

  /** The live entries sum to the whole ledger. */
  lemma LiveSumIsLedgerSum(es: seq<Entry>, policy: WalkPolicy)
    requires DistinctKeys(es) && SoundPolicy(policy)
    ensures SumOf(AmountOf(), Live(es, policy)) == SumOf(AmountOf(), es)
  {
    var gone := Annulled(es, policy);
    AnnulledSumsToZero(es, policy, |es|);
    SumOfPlus(GoneAmount(gone), KeptAmount(gone), AmountOf(), es);
    SumOfFilter(KeptAmount(gone), (e: Entry) => e.pk !in gone, es);
    FilterMembers((e: Entry) => e.pk !in gone, es);
    forall i | 0 <= i < |Live(es, policy)| ensures KeptAmount(gone)(Live(es, policy)[i]) == AmountOf()(Live(es, policy)[i]) {
      assert Live(es, policy)[i] in Live(es, policy);
    }
    SumOfAgree(KeptAmount(gone), AmountOf(), Live(es, policy));
  }

  /** The walk's position over a whole ledger. */
  function LedgerPosition(partyId: int, asOf: int, es: seq<Entry>, targets: map<int, int>, policy: WalkPolicy): Position {
    PositionOf(partyId, asOf, Live(es, policy), targets, policy)
  }

  /** Of any live entries: open less credit is their sum but for wrong signs, and only one of the two is positive. */
  lemma PositionConserves(partyId: int, asOf: int, live: seq<Entry>, targets: map<int, int>, policy: WalkPolicy)
    ensures
      var p := PositionOf(partyId, asOf, live, targets, policy);
      && p.totalOutstanding - p.creditOnAccount == p.balance
      && p.balance == SumOf(AmountOf(), live) - SumOf(WrongSign(policy), live)
      && p.totalOutstanding == Max(0, p.balance)
      && p.creditOnAccount == Max(0, -p.balance)
  {
    LiveConservation(live, targets, policy);
    PoolNonNegative(live, targets, policy);
    SettledTotal(Reduced(live, targets, policy, |live|), Pool(live, targets, policy));
  }

  /**
   Conservation, exactly: open less credit is the ledger sum, but for live reducing entries that
   carry the wrong sign and are counted on both sides; and a party is never both in debt and in credit.
   */
  lemma Conservation(partyId: int, asOf: int, es: seq<Entry>, targets: map<int, int>, policy: WalkPolicy)
    requires DistinctKeys(es) && SoundPolicy(policy)
    ensures
      var p := LedgerPosition(partyId, asOf, es, targets, policy);
      && p.totalOutstanding - p.creditOnAccount == p.balance
      && p.balance == SumOf(AmountOf(), es) - SumOf(WrongSign(policy), Live(es, policy))
      && p.totalOutstanding == Max(0, p.balance)
      && p.creditOnAccount == Max(0, -p.balance)
  {
    PositionConserves(partyId, asOf, Live(es, policy), targets, policy);
    LiveSumIsLedgerSum(es, policy);
  }

  /** So the ledger invariant holds if and only if no live reducing entry is positive. */
  lemma LedgerInvariant(partyId: int, asOf: int, es: seq<Entry>, targets: map<int, int>, policy: WalkPolicy)
    requires DistinctKeys(es) && SoundPolicy(policy)
    ensures LedgerPosition(partyId, asOf, es, targets, policy).balance == SumOf(AmountOf(), es)
            <==> forall e :: e in Live(es, policy) && e.kind == policy.reducingType ==> e.amount <= 0
  {
    Conservation(partyId, asOf, es, targets, policy);
    WrongSignVanishes(Live(es, policy), policy);
  }

  lemma LiveIsOfTheLedger(es: seq<Entry>, policy: WalkPolicy)
    ensures forall e :: e in Live(es, policy) ==> e in es
  {
    var gone := Annulled(es, policy);
    FilterMembers((e: Entry) => e.pk !in gone, es);
  }

  /** A ledger without reducing entries: the balance is its plain sum. */
  lemma NothingReduces(partyId: int, asOf: int, es: seq<Entry>, targets: map<int, int>, policy: WalkPolicy)
    requires DistinctKeys(es) && SoundPolicy(policy) && forall e :: e in es ==> e.kind != policy.reducingType
    ensures LedgerPosition(partyId, asOf, es, targets, policy).balance == SumOf(AmountOf(), es)
  {
    LiveIsOfTheLedger(es, policy);
    LedgerInvariant(partyId, asOf, es, targets, policy);
  }

  lemma {:induction false} WrongSignVanishes(live: seq<Entry>, policy: WalkPolicy)
    ensures SumOf(WrongSign(policy), live) >= 0
    ensures SumOf(WrongSign(policy), live) == 0
            <==> forall e :: e in live && e.kind == policy.reducingType ==> e.amount <= 0
  {
    if |live| != 0 {
      var front, last := live[..|live| - 1], live[|live| - 1];
      WrongSignVanishes(front, policy);
      assert live == front + [last];
      if last.kind == policy.reducingType && last.amount > 0 {
        assert last in live;
      } else {
        assert forall e :: e in live <==> e in front || e == last;
      }
    }
  }

  /** The open items are exactly the debits with something left, each with its own date, age and amount. */
  lemma {:induction false} OpenItemsAreDebits(ds: seq<Entry>, left: seq<int>, asOf: int, item: OpenItem)
    requires |ds| == |left|
    ensures item in OpenItems(ds, left, asOf)
            <==> exists i :: 0 <= i < |ds| && left[i] > 0 && item == ItemOf(ds[i], left[i], asOf)
  {
    if |ds| != 0 {
      var n := |ds| - 1;
      OpenItemsAreDebits(ds[..n], left[..n], asOf, item);
      if i :| 0 <= i < n && left[..n][i] > 0 && item == ItemOf(ds[..n][i], left[..n][i], asOf) {
        assert left[i] > 0 && item == ItemOf(ds[i], left[i], asOf);
      }
      if i :| 0 <= i < |ds| && left[i] > 0 && item == ItemOf(ds[i], left[i], asOf) && i < n {
        assert left[..n][i] > 0 && item == ItemOf(ds[..n][i], left[..n][i], asOf);
      }
    }
  }

  lemma {:induction false} OpenItemsTotal(ds: seq<Entry>, left: seq<int>, asOf: int)
    requires |ds| == |left| && forall i :: 0 <= i < |left| ==> left[i] >= 0
    ensures SumOf(OutstandingOf(), OpenItems(ds, left, asOf)) == Total(left)
  {
    if |ds| != 0 {
      var n := |ds| - 1;
      var front, item := OpenItems(ds[..n], left[..n], asOf), ItemOf(ds[n], left[n], asOf);
      OpenItemsTotal(ds[..n], left[..n], asOf);
      SumOfSnoc(OutstandingOf(), front, item);
      assert OpenItems(ds, left, asOf) == if left[n] > 0 then front + [item] else front;
    }
  }

  /** What an open item shows of the entry behind it; its age is the days from the entry's date to the report's. */
  predicate Shows(item: OpenItem, e: Entry, asOf: int) {
    && item.entryId == e.pk && item.date == e.date && item.kind == e.kind && item.document == e.narration && item.original == e.amount
    && item.ageDays + e.date == asOf
  }

  /** Each open item is a live debit of this ledger, open for at least a paisa and at most its amount, at its own date and age. */
  lemma OpenItemsAreBounded(partyId: int, asOf: int, es: seq<Entry>, targets: map<int, int>, policy: WalkPolicy, item: OpenItem)
    requires item in LedgerPosition(partyId, asOf, es, targets, policy).openItems
    ensures 0 < item.outstanding <= item.original
    ensures exists e :: e in es && e.pk !in Annulled(es, policy) && Shows(item, e, asOf)
  {
    var live := Live(es, policy);
    var ds, left := Debits(live), Remainders(live, targets, policy);
    var r, pool := Reduced(live, targets, policy, |live|), Pool(live, targets, policy);
    OpenItemsAreDebits(ds, left, asOf, item);
    var i :| 0 <= i < |ds| && left[i] > 0 && item == ItemOf(ds[i], left[i], asOf);
    PoolNonNegative(live, targets, policy);
    RemainderWithinAmount(live, targets, policy, i);
    var gone := Annulled(es, policy);
    FilterMembers(IsDebit, live);
    assert ds[i] in ds;
    FilterMembers((e: Entry) => e.pk !in gone, es);
    assert Shows(item, ds[i], asOf);
  }

  /** A position names its party and its day, adds up its items, and shows items exactly for a debt and credit exactly for a credit. */
  lemma PositionAddsUp(partyId: int, asOf: int, es: seq<Entry>, targets: map<int, int>, policy: WalkPolicy)
    ensures
      var p := LedgerPosition(partyId, asOf, es, targets, policy);
      && p.partyId == partyId && p.asOf == asOf && p.totalOutstanding == SumOf(OutstandingOf(), p.openItems)
      && (p.openItems != [] <==> p.balance > 0) && (p.creditOnAccount != 0 <==> p.balance < 0)
  {
    var live := Live(es, policy);
    var p := PositionOf(partyId, asOf, live, targets, policy);
    PositionConserves(partyId, asOf, live, targets, policy);
    PoolNonNegative(live, targets, policy);
    SettledBounds(Reduced(live, targets, policy, |live|), Pool(live, targets, policy));
    OpenItemsTotal(Debits(live), Remainders(live, targets, policy), asOf);
    if p.openItems != [] {
      forall k | 0 <= k < |p.openItems| ensures p.openItems[k].outstanding > 0 {
        OpenItemsAreBounded(partyId, asOf, es, targets, policy, p.openItems[k]);
      }
      var front := p.openItems[..|p.openItems| - 1];
      SumOfNonNegative(OutstandingOf(), front);
    }
  }

  /** Oldest first: what `order_by("entry_date", "id")` gives the walk. */
  predicate Older(a: Entry, b: Entry) { a.date < b.date || (a.date == b.date && a.pk <= b.pk) }

  predicate OlderItem(a: OpenItem, b: OpenItem) { a.date < b.date || (a.date == b.date && a.entryId <= b.entryId) }

  lemma {:induction false} ItemsKeepTheOrder(ds: seq<Entry>, left: seq<int>, asOf: int)
    requires |ds| == |left| && Ascending(Older, ds)
    ensures var items := OpenItems(ds, left, asOf);
            && Ascending(OlderItem, items)
            && forall k :: 0 <= k < |items| ==> |ds| > 0 && OlderItem(items[k], ItemOf(ds[|ds| - 1], 0, asOf))
  {
    if |ds| != 0 {
      var n := |ds| - 1;
      var front := OpenItems(ds[..n], left[..n], asOf);
      ItemsKeepTheOrder(ds[..n], left[..n], asOf);
      forall k | 0 <= k < |front| ensures OlderItem(front[k], ItemOf(ds[n], 0, asOf)) {
        assert Older(ds[n - 1], ds[n]) && OlderItem(front[k], ItemOf(ds[n - 1], 0, asOf));
      }
    }
  }

  lemma PositionIsInOrder(partyId: int, asOf: int, es: seq<Entry>, targets: map<int, int>, policy: WalkPolicy)
    requires Ascending(Older, es)
    ensures Ascending(OlderItem, LedgerPosition(partyId, asOf, es, targets, policy).openItems)
  {
    var live, gone := Live(es, policy), Annulled(es, policy);
    FilterAscending((e: Entry) => e.pk !in gone, Older, es);
    FilterAscending(IsDebit, Older, live);
    ItemsKeepTheOrder(Debits(live), Remainders(live, targets, policy), asOf);
  }

  /**
   Of a ledger in date order the open items come out in date order too, so their ages never increase down the
   list; and if every entry is dated by the report's day, no age is negative.
   */
  lemma AgesDoNotIncrease(partyId: int, asOf: int, es: seq<Entry>, targets: map<int, int>, policy: WalkPolicy, i: int, j: int)
    requires Ascending(Older, es)
    requires 0 <= i < j < |LedgerPosition(partyId, asOf, es, targets, policy).openItems|
    ensures
      var items := LedgerPosition(partyId, asOf, es, targets, policy).openItems;
      && items[i].ageDays >= items[j].ageDays && OlderItem(items[i], items[j])
      && ((forall e :: e in es ==> e.date <= asOf) ==> items[j].ageDays >= 0)
  {
    var items := LedgerPosition(partyId, asOf, es, targets, policy).openItems;
    PositionIsInOrder(partyId, asOf, es, targets, policy);
    assert OlderItem(items[i], items[j]);
    AgeOfItem(partyId, asOf, es, targets, policy, items[i]);
    AgeOfItem(partyId, asOf, es, targets, policy, items[j]);
  }

  lemma AgeOfItem(partyId: int, asOf: int, es: seq<Entry>, targets: map<int, int>, policy: WalkPolicy, item: OpenItem)
    requires item in LedgerPosition(partyId, asOf, es, targets, policy).openItems
    ensures item.ageDays + item.date == asOf
    ensures (forall e :: e in es ==> e.date <= asOf) ==> item.ageDays >= 0
  {
    OpenItemsAreBounded(partyId, asOf, es, targets, policy, item);
  }

  lemma RemainderWithinAmount(live: seq<Entry>, targets: map<int, int>, policy: WalkPolicy, i: int)
    requires 0 <= i < |Debits(live)|
    ensures Remainders(live, targets, policy)[i] <= Reduced(live, targets, policy, |live|)[i] <= Debits(live)[i].amount
  {
    var ds := Debits(live);
    SumOfNonNegative(CreditTerm(targets, ds, policy, i), live[..|live|]);
    PoolNonNegative(live, targets, policy);
    SettledBounds(Reduced(live, targets, policy, |live|), Pool(live, targets, policy));
    FilterMembers(IsDebit, live);
    assert ds[i] in ds;
  }
}
