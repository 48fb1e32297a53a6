/**
 Reversal restores the past. A document and the adjustment that cancels it leave the walk together,
 so the position afterwards is the one the ledger would show had neither ever been written.
 */
module Reversal {
  import opened Outcomes
  import opened Querysets
  import opened Sums
  import opened Vocabulary
  import opened LedgerWalk
  import opened WalkLaws

  function InsertAt(es: seq<Entry>, i: nat, x: Entry): (es': seq<Entry>)
    requires i <= |es|
    ensures |es'| == |es| + 1
  {
    es[..i] + [x] + es[i..]
  }

  /** Where entry `k` sits once something has been inserted at `i`. */
  function Shift(i: nat, k: int): int { if k < i then k else k + 1 }

  /** No entry of the ledger points at the document `x` points at. */
  ghost predicate FreshDocument(es: seq<Entry>, x: Entry) {
    forall k :: 0 <= k < |es| ==> !SameDocument(es[k], x)
  }

  ghost predicate FreshKey(es: seq<Entry>, pk: int) {
    forall k :: 0 <= k < |es| ==> es[k].pk != pk
  }

  lemma ShiftTarget(es: seq<Entry>, i: nat, x: Entry, t: int)
    requires i <= |es| && 0 <= t < |es| && !SameDocument(es[t], x)
    ensures IsTarget(InsertAt(es, i, x), Shift(i, t)) == IsTarget(es, t)
  {
    var es' := InsertAt(es, i, x);
    assert es'[Shift(i, t)] == es[t];
    if IsTarget(es, t) {
      forall j | Shift(i, t) < j < |es'| && CreatedBySource(es'[j]) ensures !SameDocument(es'[j], es'[Shift(i, t)]) {
        if j < i { assert es'[j] == es[j]; } else if j > i { assert es'[j] == es[j - 1]; }
      }
    }
    if IsTarget(es', Shift(i, t)) {
      forall j | t < j < |es| && CreatedBySource(es[j]) ensures !SameDocument(es[j], es[t]) {
        assert es'[Shift(i, j)] == es[j];
      }
    }
  }

  /** Inserting an entry about another document changes no match. */
  lemma ShiftAnnuls(es: seq<Entry>, policy: WalkPolicy, i: nat, x: Entry, a: int, t: int)
    requires i <= |es| && 0 <= a < |es| && 0 <= t < |es| && !SameDocument(es[t], x)
    ensures Annuls(InsertAt(es, i, x), policy, Shift(i, a), Shift(i, t)) == Annuls(es, policy, a, t)
  {
    var es' := InsertAt(es, i, x);
    ShiftTarget(es, i, x, t);
    forall b | 0 <= b < |es| ensures Offsets(es', policy, Shift(i, b), Shift(i, t)) == Offsets(es, policy, b, t) {
      assert es'[Shift(i, b)] == es[b] && es'[Shift(i, t)] == es[t];
    }
    assert es'[i] == x && !Offsets(es', policy, i, Shift(i, t));
    if Annuls(es, policy, a, t) {
      forall b | 0 <= b < Shift(i, a) ensures !Offsets(es', policy, b, Shift(i, t)) {
        if b != i {
          var k := if b < i then b else b - 1;
          assert Shift(i, k) == b;
        }
      }
    }
    if Annuls(es', policy, Shift(i, a), Shift(i, t)) {
      forall b | 0 <= b < a ensures !Offsets(es, policy, b, t) {
        assert Shift(i, b) < Shift(i, a);
      }
    }
  }

  function Unshift(i: nat, k: int): int { if k < i then k else k - 1 }

  lemma OnlyItself(es: seq<Entry>, i: nat, x: Entry, k: int)
    requires i <= |es| && FreshDocument(es, x) && 0 <= k <= |es|
    ensures SameDocument(InsertAt(es, i, x)[k], x) <==> k == i
  {
    var es' := InsertAt(es, i, x);
    if k < i { assert es'[k] == es[k]; } else if k > i { assert es'[k] == es[k - 1]; }
  }

  /** A match that does not involve the inserted entry was there before. */
  lemma UnshiftAnnuls(es: seq<Entry>, policy: WalkPolicy, i: nat, x: Entry, a: int, t: int)
    requires i <= |es| && a != i && t != i && Annuls(InsertAt(es, i, x), policy, a, t)
    requires !SameDocument(es[Unshift(i, t)], x)
    ensures Annuls(es, policy, Unshift(i, a), Unshift(i, t))
    ensures InsertAt(es, i, x)[a] == es[Unshift(i, a)] && InsertAt(es, i, x)[t] == es[Unshift(i, t)]
  {
    ShiftAnnuls(es, policy, i, x, Unshift(i, a), Unshift(i, t));
  }

  /** Matches among the old entries carry over, keys and all. */
  lemma OldPairsStay(es: seq<Entry>, policy: WalkPolicy, i: nat, x: Entry, pk: int)
    requires i <= |es| && pk in Annulled(es, policy)
    requires forall a, t :: Annuls(es, policy, a, t) ==> !SameDocument(es[t], x)
    ensures pk in Annulled(InsertAt(es, i, x), policy)
  {
    var es' := InsertAt(es, i, x);
    var a, t :| 0 <= a < |es| && 0 <= t < |es| && Annuls(es, policy, a, t) && (pk == es[a].pk || pk == es[t].pk);
    ShiftAnnuls(es, policy, i, x, a, t);
    assert es'[Shift(i, a)] == es[a] && es'[Shift(i, t)] == es[t];
  }

  /** An entry about a fresh document annuls nothing and is annulled by nothing. */
  lemma InsertUnmatched(es: seq<Entry>, policy: WalkPolicy, i: nat, x: Entry)
    requires SoundPolicy(policy) && i <= |es| && FreshDocument(es, x)
    ensures Annulled(InsertAt(es, i, x), policy) == Annulled(es, policy)
  {
    var es' := InsertAt(es, i, x);
    assert es'[i] == x;
    forall pk | pk in Annulled(es', policy) ensures pk in Annulled(es, policy) {
      var a, t :| 0 <= a < |es'| && 0 <= t < |es'| && Annuls(es', policy, a, t) && (pk == es'[a].pk || pk == es'[t].pk);
      OnlyItself(es, i, x, a);
      OnlyItself(es, i, x, t);
      UnshiftAnnuls(es, policy, i, x, a, t);
    }
    forall pk | pk in Annulled(es, policy) ensures pk in Annulled(es', policy) {
      OldPairsStay(es, policy, i, x, pk);
    }
  }

  /** `p` sits at `k`, and nothing else in the ledger points at its document. */
  ghost predicate OnlyEntryOf(es: seq<Entry>, k: int, p: Entry) {
    0 <= k < |es| && es[k] == p && forall j :: 0 <= j < |es| && j != k ==> !SameDocument(es[j], p)
  }

  /** The pair a service writes when it cancels the document behind `p`. */
  ghost predicate Matches(policy: WalkPolicy, p: Entry, a: Entry) {
    p.kind == p.sourceType && p.sourceType in policy.annullable && p.amount + a.amount == 0
  }

  /** Inserting the adjustment removes the pair, and nothing else, exactly when the pair matches. */
  lemma InsertAnnuller(es: seq<Entry>, policy: WalkPolicy, k: int, p: Entry, i: nat, a: Entry)
    requires SoundPolicy(policy) && i <= |es| && OnlyEntryOf(es, k, p) && p.sourceId.Some?
    requires a.kind == policy.adjustmentType && SameDocument(a, p)
    ensures Annulled(InsertAt(es, i, a), policy)
            == Annulled(es, policy) + if Matches(policy, p, a) then {p.pk, a.pk} else {}
  {
    var es' := InsertAt(es, i, a);
    assert es'[i] == a && es'[Shift(i, k)] == p;
    forall u, t | Annuls(es, policy, u, t) ensures !SameDocument(es[t], a) {
    }
    if Matches(policy, p, a) {
      assert IsTarget(es', Shift(i, k)) by {
        forall j | Shift(i, k) < j < |es'| && CreatedBySource(es'[j]) ensures !SameDocument(es'[j], p) {
          if j == i { assert false; } else { assert es'[j] == es[Unshift(i, j)]; }
        }
      }
      forall b | 0 <= b < i ensures !Offsets(es', policy, b, Shift(i, k)) {
        assert es'[b] == es[b];
      }
      assert Annuls(es', policy, i, Shift(i, k));
    }
    forall pk | pk in Annulled(es', policy)
      ensures pk in Annulled(es, policy) || (Matches(policy, p, a) && (pk == p.pk || pk == a.pk))
    {
      var u, t :| 0 <= u < |es'| && 0 <= t < |es'| && Annuls(es', policy, u, t) && (pk == es'[u].pk || pk == es'[t].pk);
      PairInvolving(es, policy, k, p, i, a, u, t);
    }
    forall pk | pk in Annulled(es, policy) ensures pk in Annulled(es', policy) {
      OldPairsStay(es, policy, i, a, pk);
    }
  }

  /** A match in the longer ledger is an old one, or is exactly the new pair. */
  lemma PairInvolving(es: seq<Entry>, policy: WalkPolicy, k: int, p: Entry, i: nat, a: Entry, u: int, t: int)
    requires SoundPolicy(policy) && i <= |es| && OnlyEntryOf(es, k, p)
    requires a.kind == policy.adjustmentType && SameDocument(a, p)
    requires Annuls(InsertAt(es, i, a), policy, u, t)
    ensures var es' := InsertAt(es, i, a);
            || (es'[u].pk in Annulled(es, policy) && es'[t].pk in Annulled(es, policy))
            || (Matches(policy, p, a) && es'[u] == a && es'[t] == p)
  {
    var es' := InsertAt(es, i, a);
    assert es'[i] == a && es'[Shift(i, k)] == p;
    assert t != i;
    assert es'[t] == es[Unshift(i, t)];
    if u == i {
      assert SameDocument(es[Unshift(i, t)], p);
    } else {
      assert es'[u] == es[Unshift(i, u)];
      UnshiftAnnuls(es, policy, i, a, u, t);
    }
  }

  /** Dropping keys the ledger does not carry changes nothing. */
  lemma {:induction false} DropForeign(es: seq<Entry>, gone: set<int>, gone': set<int>)
    requires forall k :: 0 <= k < |es| ==> (es[k].pk in gone <==> es[k].pk in gone')
    ensures Filter((e: Entry) => e.pk !in gone', es) == Filter((e: Entry) => e.pk !in gone, es)
  {
    FilterAgree((e: Entry) => e.pk !in gone', (e: Entry) => e.pk !in gone, es);
  }

  lemma FilterInsertAt(es: seq<Entry>, i: nat, x: Entry, keep: Entry -> bool)
    requires i <= |es|
    ensures !keep(x) ==> Filter(keep, InsertAt(es, i, x)) == Filter(keep, es)
    ensures keep(x) ==> |Filter(keep, InsertAt(es, i, x))| == |Filter(keep, es)| + 1
  {
    var u, v := es[..i], es[i..];
    assert es == u + v;
    FilterConcat(keep, u + [x], v);
    FilterConcat(keep, u, v);
    FilterSnoc(keep, u, x);
  }

  /** The ledger with `p` inserted at one position and then `a` at another. */
  function WithPair(es: seq<Entry>, p: Entry, i: nat, a: Entry, j: nat): seq<Entry>
    requires i <= |es| && j <= |es| + 1
  {
    InsertAt(InsertAt(es, i, p), j, a)
  }

  /** The live ledger is unchanged exactly when the pair is matched. */
  lemma LiveWithPair(es: seq<Entry>, policy: WalkPolicy, p: Entry, i: nat, a: Entry, j: nat)
    requires SoundPolicy(policy) && i <= |es| && j <= |es| + 1
    requires FreshDocument(es, p) && p.sourceId.Some?
    requires a.kind == policy.adjustmentType && SameDocument(a, p)
    requires FreshKey(es, p.pk) && FreshKey(es, a.pk) && p.pk != a.pk
    ensures Live(WithPair(es, p, i, a, j), policy) == Live(es, policy) <==> Matches(policy, p, a)
  {
    var mid := InsertAt(es, i, p);
    var all := InsertAt(mid, j, a);
    InsertUnmatched(es, policy, i, p);
    forall k | 0 <= k < |mid| && k != i ensures !SameDocument(mid[k], p) { OnlyItself(es, i, p, k); }
    InsertAnnuller(mid, policy, i, p, j, a);
    var gone := Annulled(all, policy);
    var keep := (e: Entry) => e.pk !in gone;
    FilterInsertAt(mid, j, a, keep);
    FilterInsertAt(es, i, p, keep);
    KeysOfAnnulled(es, policy);
    DropForeign(es, Annulled(es, policy), gone);
  }

  lemma KeysOfAnnulled(es: seq<Entry>, policy: WalkPolicy)
    ensures forall pk :: pk in Annulled(es, policy) ==> exists k :: 0 <= k < |es| && es[k].pk == pk
  {
  }

  /**
   Reversal restores the past: wherever the two entries fall in the ledger, the open items, their
   original dates and ages, the credit on account and the balance are those of the ledger without them.
   */
  lemma ReversalRestoresThePast(partyId: int, asOf: int, es: seq<Entry>, targets: map<int, int>, policy: WalkPolicy,
                                p: Entry, i: nat, a: Entry, j: nat)
    requires SoundPolicy(policy) && i <= |es| && j <= |es| + 1
    requires FreshDocument(es, p) && p.sourceId.Some? && Matches(policy, p, a)
    requires a.kind == policy.adjustmentType && SameDocument(a, p)
    requires FreshKey(es, p.pk) && FreshKey(es, a.pk) && p.pk != a.pk
    ensures LedgerPosition(partyId, asOf, WithPair(es, p, i, a, j), targets, policy)
            == LedgerPosition(partyId, asOf, es, targets, policy)
  {
    LiveWithPair(es, policy, p, i, a, j);
  }
}
