/** Sorting by a total preorder `before` (`before(a, b)`: `a` may come before `b`), and the order
    of `ORDER BY <aggregate> DESC, <enum column>`: the larger number first, then the smaller name. */
module Sorting {
  import Strings

  ghost predicate Total<T(!new)>(before: (T, T) -> bool) {
    forall a, b :: before(a, b) || before(b, a)
  }

  ghost predicate Transitive<T(!new)>(before: (T, T) -> bool) {
    forall a, b, c :: before(a, b) && before(b, c) ==> before(a, c)
  }

  predicate SortedBy<T>(s: seq<T>, before: (T, T) -> bool) {
    forall i, j :: 0 <= i < j < |s| ==> before(s[i], s[j])
  }

  predicate NoDuplicates<T(==)>(s: seq<T>) {
    forall i, j :: 0 <= i < j < |s| ==> s[i] != s[j]
  }

  /** `x` inserted before the first element it may precede. */
  function Insert<T>(x: T, s: seq<T>, before: (T, T) -> bool): (r: seq<T>)
    ensures multiset(r) == multiset(s) + multiset{x}
    ensures |r| == |s| + 1
  {
    if s == [] then [x]
    else if before(x, s[0]) then [x] + s
    else
      assert s == [s[0]] + s[1..];
      [s[0]] + Insert(x, s[1..], before)
  }

  lemma {:induction false} InsertSorted<T(!new)>(x: T, s: seq<T>, before: (T, T) -> bool)
    requires Total(before) && Transitive(before)
    requires SortedBy(s, before)
    ensures SortedBy(Insert(x, s, before), before)
  {
    if s != [] && !before(x, s[0]) {
      var tail := Insert(x, s[1..], before);
      InsertSorted(x, s[1..], before);
      forall k | 0 <= k < |tail|
        ensures before(s[0], tail[k])
      {
        assert tail[k] in multiset(s[1..]) + multiset{x};
        if tail[k] != x {
          assert tail[k] in s[1..];
        }
      }
    }
  }

  lemma {:induction false} InsertNoDuplicates<T>(x: T, s: seq<T>, before: (T, T) -> bool)
    requires NoDuplicates(s) && x !in s
    ensures NoDuplicates(Insert(x, s, before))
  {
    if s != [] && !before(x, s[0]) {
      assert s == [s[0]] + s[1..];
      InsertNoDuplicates(x, s[1..], before);
      assert s[0] !in multiset(Insert(x, s[1..], before));
    }
  }

  /** A sorted permutation of `s`. Elements that tie keep their order in `s`. */
  function SortBy<T(!new)>(s: seq<T>, before: (T, T) -> bool): (r: seq<T>)
    requires Total(before) && Transitive(before)
    ensures multiset(r) == multiset(s) && |r| == |s|
    ensures SortedBy(r, before)
  {
    if s == [] then []
    else
      assert s == [s[0]] + s[1..];
      var tail := SortBy(s[1..], before);
      InsertSorted(s[0], tail, before);
      Insert(s[0], tail, before)
  }

  lemma {:induction false} SortByNoDuplicates<T(!new)>(s: seq<T>, before: (T, T) -> bool)
    requires Total(before) && Transitive(before)
    requires NoDuplicates(s)
    ensures NoDuplicates(SortBy(s, before))
  {
    if s != [] {
      assert s == [s[0]] + s[1..];
      SortByNoDuplicates(s[1..], before);
      assert s[0] !in multiset(SortBy(s[1..], before));
      InsertNoDuplicates(s[0], SortBy(s[1..], before), before);
    }
  }

  /** The key of an aggregate row: the aggregate, sorted descending, and the enum name, ascending. */
  datatype Rank = Rank(primary: real, name: string)

  predicate Precedes(a: Rank, b: Rank) {
    a.primary > b.primary || (a.primary == b.primary && Strings.LessOrEqual(a.name, b.name))
  }

  lemma PrecedesTotal(a: Rank, b: Rank)
    ensures Precedes(a, b) || Precedes(b, a)
  {
    if a.primary == b.primary && a.name != b.name {
      Strings.LessTotal(a.name, b.name);
    }
  }

  lemma PrecedesTransitive(a: Rank, b: Rank, c: Rank)
    requires Precedes(a, b) && Precedes(b, c)
    ensures Precedes(a, c)
  {
    if a.primary == b.primary && b.primary == c.primary {
      Strings.LessOrEqualTransitive(a.name, b.name, c.name);
    }
  }

  /** `a` comes strictly before `b`: a larger number, or the same number and a smaller name. */
  predicate StrictlyPrecedes(a: Rank, b: Rank) {
    a.primary > b.primary || (a.primary == b.primary && Strings.Less(a.name, b.name))
  }

  /** Between rows with different names the order is strict. */
  lemma PrecedesStrict(a: Rank, b: Rank)
    requires Precedes(a, b) && a.name != b.name
    ensures StrictlyPrecedes(a, b)
  {
  }

  /** Ordering elements by their rank is a total preorder. */
  lemma RankedOrder<T(!new)>(before: (T, T) -> bool, rank: T -> Rank)
    requires forall a, b :: before(a, b) == Precedes(rank(a), rank(b))
    ensures Total(before) && Transitive(before)
  {
    forall a, b
      ensures before(a, b) || before(b, a)
    {
      PrecedesTotal(rank(a), rank(b));
    }
    forall a, b, c | before(a, b) && before(b, c)
      ensures before(a, c)
    {
      PrecedesTransitive(rank(a), rank(b), rank(c));
    }
  }
}
