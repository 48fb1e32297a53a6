/** Options and outcomes shared by every component. */
module Outcomes {

  datatype Option<+T> = None | Some(value: T)

  const VALIDATION_FAILED := "VALIDATION_FAILED"

  /** A service either commits a value or refuses with the error code the source raises. */
  datatype Outcome<+T> = Done(value: T) | Refused(code: string)
}

/** Finite sums over sequences, and the only facts about them the project needs. */
module Sums {

  function Max(a: int, b: int): int { if a < b then b else a }

  function Min(a: int, b: int): int { if a < b then a else b }

  function Abs(a: int): int { if a < 0 then -a else a }

  function SumOf<T>(f: T -> int, s: seq<T>): int {
    if |s| == 0 then 0 else SumOf(f, s[..|s| - 1]) + f(s[|s| - 1])
  }

  lemma SumOfSnoc<T>(f: T -> int, s: seq<T>, x: T)
    ensures SumOf(f, s + [x]) == SumOf(f, s) + f(x)
  {
    assert (s + [x])[..|s|] == s;
  }

  lemma {:induction false} SumOfConcat<T>(f: T -> int, a: seq<T>, b: seq<T>)
    ensures SumOf(f, a + b) == SumOf(f, a) + SumOf(f, b)
  {
    if |b| == 0 {
      assert a + b == a;
    } else {
      var front := b[..|b| - 1];
      assert a + b == (a + front) + [b[|b| - 1]];
      SumOfSnoc(f, a + front, b[|b| - 1]);
      SumOfConcat(f, a, front);
    }
  }

  lemma SumOfCons<T>(f: T -> int, x: T, s: seq<T>)
    ensures SumOf(f, [x] + s) == f(x) + SumOf(f, s)
  {
    SumOfConcat(f, [x], s);
    assert [x][..0] == [];
  }

  /** Two summands that agree on every element of `s` give the same sum. */
  lemma {:induction false} SumOfAgree<T>(f: T -> int, g: T -> int, s: seq<T>)
    requires forall i :: 0 <= i < |s| ==> f(s[i]) == g(s[i])
    ensures SumOf(f, s) == SumOf(g, s)
  {
    if |s| != 0 {
      var front := s[..|s| - 1];
      forall i | 0 <= i < |front| ensures f(front[i]) == g(front[i]) {
        assert front[i] == s[i];
      }
      SumOfAgree(f, g, front);
    }
  }

  /** A sum is additive in its summand. */
  lemma {:induction false} SumOfPlus<T>(f: T -> int, g: T -> int, h: T -> int, s: seq<T>)
    requires forall i :: 0 <= i < |s| ==> h(s[i]) == f(s[i]) + g(s[i])
    ensures SumOf(h, s) == SumOf(f, s) + SumOf(g, s)
  {
    if |s| != 0 {
      var front := s[..|s| - 1];
      forall i | 0 <= i < |front| ensures h(front[i]) == f(front[i]) + g(front[i]) {
        assert front[i] == s[i];
      }
      SumOfPlus(f, g, h, front);
    }
  }

  lemma {:induction false} SumOfNonNegative<T>(f: T -> int, s: seq<T>)
    requires forall i :: 0 <= i < |s| ==> f(s[i]) >= 0
    ensures SumOf(f, s) >= 0
  {
    if |s| != 0 {
      var front := s[..|s| - 1];
      forall i | 0 <= i < |front| ensures f(front[i]) >= 0 {
        assert front[i] == s[i];
      }
      SumOfNonNegative(f, front);
    }
  }

  /** Changing one element changes the sum by exactly the difference. */
  lemma {:induction false} SumOfUpdate<T>(f: T -> int, s: seq<T>, i: nat, x: T)
    requires i < |s|
    ensures SumOf(f, s[i := x]) == SumOf(f, s) + f(x) - f(s[i])
  {
    var last := |s| - 1;
    if i == last {
      assert s[i := x][..last] == s[..last];
    } else {
      assert s[i := x][..last] == s[..last][i := x];
      SumOfUpdate(f, s[..last], i, x);
    }
  }

  function Total(s: seq<int>): int {
    if |s| == 0 then 0 else Total(s[..|s| - 1]) + s[|s| - 1]
  }

  lemma TotalSnoc(s: seq<int>, x: int)
    ensures Total(s + [x]) == Total(s) + x
  {
    assert (s + [x])[..|s|] == s;
  }

  lemma TotalPrefix(s: seq<int>, i: nat)
    requires i < |s|
    ensures Total(s[..i + 1]) == Total(s[..i]) + s[i]
  {
    assert s[..i + 1] == s[..i] + [s[i]];
    TotalSnoc(s[..i], s[i]);
  }

  lemma {:induction false} TotalNonNegative(s: seq<int>)
    requires forall i :: 0 <= i < |s| ==> s[i] >= 0
    ensures Total(s) >= 0
  {
    if |s| != 0 {
      TotalNonNegative(s[..|s| - 1]);
    }
  }

  /** Prefix totals of a non-negative sequence never decrease. */
  lemma {:induction false} TotalMonotone(s: seq<int>, i: nat, j: nat)
    requires i <= j <= |s|
    requires forall k :: 0 <= k < |s| ==> s[k] >= 0
    ensures Total(s[..i]) <= Total(s[..j])
    decreases j - i
  {
    if i < j {
      TotalMonotone(s, i, j - 1);
      TotalPrefix(s, j - 1);
    }
  }

  /** Changing one element changes the total by exactly the difference. */
  lemma {:induction false} TotalUpdate(s: seq<int>, i: nat, x: int)
    requires i < |s|
    ensures Total(s[i := x]) == Total(s) + x - s[i]
  {
    var last := |s| - 1;
    if i == last {
      assert s[i := x][..last] == s[..last];
    } else {
      assert s[i := x][..last] == s[..last][i := x];
      TotalUpdate(s[..last], i, x);
    }
  }

  /** The total of a pointwise sum. */
  lemma {:induction false} TotalPlus(a: seq<int>, b: seq<int>, c: seq<int>)
    requires |a| == |b| == |c|
    requires forall i :: 0 <= i < |a| ==> c[i] == a[i] + b[i]
    ensures Total(c) == Total(a) + Total(b)
  {
    if |a| != 0 {
      var last := |a| - 1;
      TotalPlus(a[..last], b[..last], c[..last]);
    }
  }
}

/** `filter(...)` and `order_by(...)`: what a queryset returns, as functions on sequences. */
module Querysets {
  import opened Sums

  function Filter<T>(p: T -> bool, s: seq<T>): seq<T> {
    if |s| == 0 then []
    else if p(s[|s| - 1]) then Filter(p, s[..|s| - 1]) + [s[|s| - 1]]
    else Filter(p, s[..|s| - 1])
  }

  /** `filter(...).first()`: the index of the first row the predicate selects, or -1. */
  function IndexWhere<T>(p: T -> bool, s: seq<T>): (i: int)
    ensures -1 <= i < |s| && (i >= 0 ==> p(s[i]))
    ensures forall j :: 0 <= j < (if i < 0 then |s| else i) ==> !p(s[j])
  {
    if |s| == 0 then -1
    else
      var front := IndexWhere(p, s[..|s| - 1]);
      if front >= 0 then front else if p(s[|s| - 1]) then |s| - 1 else -1
  }

  lemma FilterSnoc<T>(p: T -> bool, s: seq<T>, x: T)
    ensures Filter(p, s + [x]) == if p(x) then Filter(p, s) + [x] else Filter(p, s)
  {
    assert (s + [x])[..|s|] == s;
  }

  lemma {:induction false} FilterConcat<T>(p: T -> bool, a: seq<T>, b: seq<T>)
    ensures Filter(p, a + b) == Filter(p, a) + Filter(p, b)
  {
    if |b| == 0 {
      assert a + b == a;
    } else {
      var front := b[..|b| - 1];
      assert a + b == (a + front) + [b[|b| - 1]];
      FilterSnoc(p, a + front, b[|b| - 1]);
      FilterConcat(p, a, front);
      FilterSnoc(p, front, b[|b| - 1]);
      assert b == front + [b[|b| - 1]];
      if p(b[|b| - 1]) {
        assert Filter(p, a) + (Filter(p, front) + [b[|b| - 1]]) == Filter(p, a) + Filter(p, front) + [b[|b| - 1]];
      }
    }
  }

  lemma FilterCons<T>(p: T -> bool, x: T, s: seq<T>)
    ensures Filter(p, [x] + s) == if p(x) then [x] + Filter(p, s) else Filter(p, s)
  {
    FilterConcat(p, [x], s);
    assert [x][..0] == [];
    assert [] + Filter(p, s) == Filter(p, s);
  }

  lemma {:induction false} FilterMembers<T>(p: T -> bool, s: seq<T>)
    ensures forall x :: x in Filter(p, s) <==> x in s && p(x)
    ensures |Filter(p, s)| <= |s|
  {
    if |s| != 0 {
      FilterMembers(p, s[..|s| - 1]);
      assert s == s[..|s| - 1] + [s[|s| - 1]];
    }
  }

  lemma {:induction false} FilterBefore<T>(p: T -> bool, le: (T, T) -> bool, s: seq<T>, x: T)
    requires forall k :: 0 <= k < |s| ==> le(s[k], x)
    ensures forall i :: 0 <= i < |Filter(p, s)| ==> le(Filter(p, s)[i], x)
  {
    if |s| != 0 {
      var front := s[..|s| - 1];
      forall k | 0 <= k < |front| ensures le(front[k], x) { assert front[k] == s[k]; }
      FilterBefore(p, le, front, x);
      assert le(s[|s| - 1], x);
    }
  }

  /** Selecting rows keeps their order. */
  lemma {:induction false} FilterAscending<T>(p: T -> bool, le: (T, T) -> bool, s: seq<T>)
    requires Ascending(le, s)
    ensures Ascending(le, Filter(p, s))
  {
    if |s| != 0 {
      var front, last := s[..|s| - 1], s[|s| - 1];
      FilterAscending(p, le, front);
      forall k | 0 <= k < |front| ensures le(front[k], last) { assert le(s[k], s[|s| - 1]); }
      FilterBefore(p, le, front, last);
    }
  }

  /** Two predicates that agree on `s` select the same rows. */
  /** A filter keeps as many of each row as there were. */
  lemma {:induction false} FilterMultiplicity<T>(p: T -> bool, s: seq<T>, x: T)
    ensures multiset(Filter(p, s))[x] == if p(x) then multiset(s)[x] else 0
  {
    if |s| != 0 {
      FilterMultiplicity(p, s[..|s| - 1], x);
      assert s == s[..|s| - 1] + [s[|s| - 1]];
    }
  }

  /** Cutting an ordered sequence where a condition that only earlier rows meet stops holding. */
  lemma {:induction false} SplitAscending<T(!new)>(p: T -> bool, q: T -> bool, le: (T, T) -> bool, s: seq<T>)
    requires Ascending(le, s) && (forall x :: q(x) <==> !p(x)) && forall x, y :: le(x, y) && p(y) ==> p(x)
    ensures s == Filter(p, s) + Filter(q, s)
    ensures |s| > 0 && p(s[|s| - 1]) ==> Filter(q, s) == []
  {
    if |s| != 0 {
      var front, last := s[..|s| - 1], s[|s| - 1];
      SplitAscending(p, q, le, front);
      assert s == front + [last];
      if |front| > 0 && p(last) { assert le(s[|front| - 1], last); }
    }
  }

  lemma {:induction false} FilterAgree<T>(p: T -> bool, q: T -> bool, s: seq<T>)
    requires forall i :: 0 <= i < |s| ==> p(s[i]) == q(s[i])
    ensures Filter(p, s) == Filter(q, s)
  {
    if |s| != 0 {
      var front := s[..|s| - 1];
      forall i | 0 <= i < |front| ensures p(front[i]) == q(front[i]) {
        assert front[i] == s[i];
      }
      FilterAgree(p, q, front);
    }
  }

  /** Filtering by `p` and then `q` is filtering by their conjunction. */
  lemma {:induction false} FilterTwice<T>(p: T -> bool, q: T -> bool, r: T -> bool, s: seq<T>)
    requires forall x :: r(x) == (p(x) && q(x))
    ensures Filter(q, Filter(p, s)) == Filter(r, s)
  {
    if |s| != 0 {
      var x := s[|s| - 1];
      FilterTwice(p, q, r, s[..|s| - 1]);
      if p(x) {
        FilterSnoc(q, Filter(p, s[..|s| - 1]), x);
      }
    }
  }

  /** Rows the predicate drops contribute nothing to a sum that is zero on them. */
  lemma {:induction false} SumOfFilter<T>(f: T -> int, p: T -> bool, s: seq<T>)
    requires forall i :: 0 <= i < |s| && !p(s[i]) ==> f(s[i]) == 0
    ensures SumOf(f, Filter(p, s)) == SumOf(f, s)
  {
    if |s| != 0 {
      var front := s[..|s| - 1];
      forall i | 0 <= i < |front| && !p(front[i]) ensures f(front[i]) == 0 {
        assert front[i] == s[i];
      }
      SumOfFilter(f, p, front);
      if p(s[|s| - 1]) {
        SumOfSnoc(f, Filter(p, front), s[|s| - 1]);
      }
    }
  }

  // ------------------------------------------------------------------ order_by

  function Insert<T>(le: (T, T) -> bool, x: T, s: seq<T>): seq<T> {
    if |s| == 0 then [x]
    else if le(x, s[0]) then [x] + s
    else [s[0]] + Insert(le, x, s[1..])
  }

  /** Ascending by `le`, as `order_by` returns the rows. */
  function OrderBy<T>(le: (T, T) -> bool, s: seq<T>): seq<T> {
    if |s| == 0 then [] else Insert(le, s[0], OrderBy(le, s[1..]))
  }

  ghost predicate TotalOrder<T(!new)>(le: (T, T) -> bool) {
    && (forall x, y :: le(x, y) || le(y, x))
    && (forall x, y, z :: le(x, y) && le(y, z) ==> le(x, z))
  }

  ghost predicate Ascending<T>(le: (T, T) -> bool, s: seq<T>) {
    forall i, j :: 0 <= i < j < |s| ==> le(s[i], s[j])
  }

  lemma {:induction false} InsertPermutes<T>(le: (T, T) -> bool, x: T, s: seq<T>)
    ensures multiset(Insert(le, x, s)) == multiset(s) + multiset{x}
  {
    if |s| != 0 && !le(x, s[0]) {
      InsertPermutes(le, x, s[1..]);
      assert s == [s[0]] + s[1..];
    }
  }

  lemma {:induction false} OrderByPermutes<T>(le: (T, T) -> bool, s: seq<T>)
    ensures multiset(OrderBy(le, s)) == multiset(s)
  {
    if |s| != 0 {
      OrderByPermutes(le, s[1..]);
      InsertPermutes(le, s[0], OrderBy(le, s[1..]));
      assert s == [s[0]] + s[1..];
    }
  }

  lemma OrderByMembers<T>(le: (T, T) -> bool, s: seq<T>)
    ensures forall x :: x in OrderBy(le, s) <==> x in s
    ensures |OrderBy(le, s)| == |s|
  {
    OrderByPermutes(le, s);
    forall x ensures x in OrderBy(le, s) <==> x in s {
      assert x in multiset(s) <==> x in s;
      assert x in multiset(OrderBy(le, s)) <==> x in OrderBy(le, s);
    }
    assert |multiset(OrderBy(le, s))| == |OrderBy(le, s)|;
    assert |multiset(s)| == |s|;
  }

  lemma {:induction false} InsertAscending<T(!new)>(le: (T, T) -> bool, x: T, s: seq<T>)
    requires TotalOrder(le) && Ascending(le, s)
    ensures Ascending(le, Insert(le, x, s))
  {
    if |s| != 0 && !le(x, s[0]) {
      var rest := Insert(le, x, s[1..]);
      InsertAscending(le, x, s[1..]);
      InsertPermutes(le, x, s[1..]);
      forall j | 0 <= j < |rest| ensures le(s[0], rest[j]) {
        assert rest[j] in multiset(rest);
        assert rest[j] == x || rest[j] in s[1..];
      }
    } else if |s| != 0 {
      forall j | 0 <= j < |s| ensures le(x, s[j]) {
        assert j > 0 ==> le(s[0], s[j]);
      }
    }
  }

  lemma {:induction false} OrderByAscending<T(!new)>(le: (T, T) -> bool, s: seq<T>)
    requires TotalOrder(le)
    ensures Ascending(le, OrderBy(le, s))
  {
    if |s| != 0 {
      OrderByAscending(le, s[1..]);
      InsertAscending(le, s[0], OrderBy(le, s[1..]));
    }
  }

  lemma {:induction false} SumOfInsert<T>(f: T -> int, le: (T, T) -> bool, x: T, s: seq<T>)
    ensures SumOf(f, Insert(le, x, s)) == f(x) + SumOf(f, s)
  {
    SumOfCons(f, x, s);
    if |s| == 0 {
      assert [x] + s == [x];
    } else if !le(x, s[0]) {
      assert s == [s[0]] + s[1..];
      SumOfCons(f, s[0], s[1..]);
      SumOfCons(f, s[0], Insert(le, x, s[1..]));
      SumOfInsert(f, le, x, s[1..]);
    }
  }

  /** Ordering the rows changes no sum over them. */
  lemma {:induction false} SumOfOrderBy<T>(f: T -> int, le: (T, T) -> bool, s: seq<T>)
    ensures SumOf(f, OrderBy(le, s)) == SumOf(f, s)
  {
    if |s| != 0 {
      SumOfOrderBy(f, le, s[1..]);
      SumOfInsert(f, le, s[0], OrderBy(le, s[1..]));
      SumOfCons(f, s[0], s[1..]);
      assert s == [s[0]] + s[1..];
    }
  }

  // ------------------------------------------------------------------ no row twice

  predicate Distinct<T(==)>(s: seq<T>) { forall i, j :: 0 <= i < j < |s| ==> s[i] != s[j] }

  /** No two positions hold equal rows exactly when every multiplicity is at most one. */
  lemma {:induction false} DistinctIsMultiplicity<T>(s: seq<T>)
    ensures Distinct(s) <==> forall x :: multiset(s)[x] <= 1
  {
    if |s| != 0 {
      var front, last := s[..|s| - 1], s[|s| - 1];
      DistinctIsMultiplicity(front);
      assert s == front + [last];
      assert multiset(s) == multiset(front) + multiset{last};
      if Distinct(s) {
        assert last !in front;
        assert last !in multiset(front);
      } else if Distinct(front) {
        var i, j :| 0 <= i < j < |s| && s[i] == s[j];
        assert s[i] in front;
        assert s[i] in multiset(front);
        assert multiset(s)[last] >= 2;
      } else {
        var x :| multiset(front)[x] > 1;
        assert multiset(s)[x] > 1;
      }
    }
  }

  lemma OrderByDistinct<T>(le: (T, T) -> bool, s: seq<T>)
    requires Distinct(s)
    ensures Distinct(OrderBy(le, s))
  {
    OrderByPermutes(le, s);
    DistinctIsMultiplicity(s);
    DistinctIsMultiplicity(OrderBy(le, s));
  }

  lemma {:induction false} FilterDistinct<T>(p: T -> bool, s: seq<T>)
    requires Distinct(s)
    ensures Distinct(Filter(p, s))
  {
    if |s| != 0 {
      var front := s[..|s| - 1];
      FilterDistinct(p, front);
      FilterMembers(p, front);
    }
  }

  /** In an ascending table the head comes before every row a filter keeps. */
  lemma FilterHead<T(!new)>(p: T -> bool, le: (T, T) -> bool, x: T, s: seq<T>)
    requires TotalOrder(le) && Ascending(le, s) && |s| > 0 && le(x, s[0])
    ensures |Filter(p, s)| > 0 ==> p(Filter(p, s)[0]) && le(x, Filter(p, s)[0])
  {
    FilterMembers(p, s);
    if |Filter(p, s)| > 0 {
      var y := Filter(p, s)[0];
      assert y in Filter(p, s);
      var i :| 0 <= i < |s| && s[i] == y;
      assert i == 0 || le(s[0], s[i]);
    }
  }

  lemma {:induction false} FilterInsert<T(!new)>(p: T -> bool, wide: (T, T) -> bool, le: (T, T) -> bool, x: T, s: seq<T>)
    requires TotalOrder(wide) && Ascending(wide, s)
    requires forall y, z :: p(y) && p(z) ==> wide(y, z) == le(y, z)
    ensures Filter(p, Insert(wide, x, s)) == if p(x) then Insert(le, x, Filter(p, s)) else Filter(p, s)
  {
    FilterCons(p, x, s);
    if |s| == 0 {
      assert [x] + s == [x];
    } else if wide(x, s[0]) {
      FilterHead(p, wide, x, s);
    } else {
      var rest := s[1..];
      FilterCons(p, s[0], rest);
      FilterCons(p, s[0], Insert(wide, x, rest));
      FilterInsert(p, wide, le, x, rest);
      assert s == [s[0]] + rest;
      if p(x) && p(s[0]) {
        assert ([s[0]] + Filter(p, rest))[1..] == Filter(p, rest);
      }
    }
  }

  /** Ordering the whole table and then selecting a group gives the group in its own order. */
  lemma {:induction false} FilterOrderBy<T(!new)>(p: T -> bool, wide: (T, T) -> bool, le: (T, T) -> bool, s: seq<T>)
    requires TotalOrder(wide)
    requires forall y, z :: p(y) && p(z) ==> wide(y, z) == le(y, z)
    ensures Filter(p, OrderBy(wide, s)) == OrderBy(le, Filter(p, s))
  {
    if |s| != 0 {
      var rest := s[1..];
      FilterOrderBy(p, wide, le, rest);
      OrderByAscending(wide, rest);
      FilterInsert(p, wide, le, s[0], OrderBy(wide, rest));
      assert s == [s[0]] + rest;
      FilterCons(p, s[0], rest);
      if p(s[0]) {
        assert ([s[0]] + Filter(p, rest))[1..] == Filter(p, rest);
      }
    }
  }
}
