/** The semantics of `GROUP BY <column>` with `SUM(e.amount)` and `COUNT(e)` over a sequence of
    rows, for any column `key` whose values are listed in `ks`. A group exists only for a value
    that some row carries. */
module Grouping {
  import opened Model
  import Sorting

  /** `SUM(e.amount)` over `s`; the empty sum is 0, which is what `COALESCE(SUM(e.amount), 0)` gives. */
  function SumAmounts(s: seq<Record>): real {
    if s == [] then 0.0 else s[0].amount + SumAmounts(s[1..])
  }

  /** The rows of `s` whose column `key` holds `k`, in their order in `s`. */
  function Where<K(==)>(s: seq<Record>, key: Record -> K, k: K): (r: seq<Record>)
    ensures forall x :: x in r <==> x in s && key(x) == k
    ensures |r| <= |s|
  {
    if s == [] then []
    else if key(s[0]) == k then [s[0]] + Where(s[1..], key, k)
    else Where(s[1..], key, k)
  }

  datatype Group<K> = Group(key: K, total: real, count: nat)

  /** The aggregate row of the value `k`. */
  function GroupOf<K(==)>(s: seq<Record>, key: Record -> K, k: K): Group<K> {
    Group(k, SumAmounts(Where(s, key, k)), |Where(s, key, k)|)
  }

  /** One aggregate row for every value of `ks` that some row of `s` carries, in the order of `ks`. */
  function Groups<K(==)>(ks: seq<K>, s: seq<Record>, key: Record -> K): (r: seq<Group<K>>)
    ensures forall g :: g in r ==> g.key in ks && g == GroupOf(s, key, g.key) && g.count > 0
    ensures forall k :: k in ks && (exists x :: x in s && key(x) == k) ==> GroupOf(s, key, k) in r
  {
    if ks == [] then []
    else
      var rest := Groups(ks[1..], s, key);
      if |Where(s, key, ks[0])| > 0 then [GroupOf(s, key, ks[0])] + rest else rest
  }

  /** No value gives rise to two aggregate rows. */
  lemma {:induction false} GroupsNoDuplicates<K>(ks: seq<K>, s: seq<Record>, key: Record -> K)
    requires Sorting.NoDuplicates(ks)
    ensures Sorting.NoDuplicates(Groups(ks, s, key))
  {
    if ks != [] {
      assert Sorting.NoDuplicates(ks[1..]);
      GroupsNoDuplicates(ks[1..], s, key);
      assert ks[0] !in ks[1..];
    }
  }

  function TotalOf<K>(gs: seq<Group<K>>): real {
    if gs == [] then 0.0 else gs[0].total + TotalOf(gs[1..])
  }

  function CountOf<K>(gs: seq<Group<K>>): nat {
    if gs == [] then 0 else gs[0].count + CountOf(gs[1..])
  }

  /** The per-value sums of `s` over the values `ks`, groups with no row included. */
  function KeySum<K(==)>(ks: seq<K>, s: seq<Record>, key: Record -> K): real {
    if ks == [] then 0.0 else SumAmounts(Where(s, key, ks[0])) + KeySum(ks[1..], s, key)
  }

  function KeyCount<K(==)>(ks: seq<K>, s: seq<Record>, key: Record -> K): nat {
    if ks == [] then 0 else |Where(s, key, ks[0])| + KeyCount(ks[1..], s, key)
  }

  lemma {:induction false} GroupsSumKeySums<K>(ks: seq<K>, s: seq<Record>, key: Record -> K)
    ensures TotalOf(Groups(ks, s, key)) == KeySum(ks, s, key)
    ensures CountOf(Groups(ks, s, key)) == KeyCount(ks, s, key)
  {
    if ks != [] {
      GroupsSumKeySums(ks[1..], s, key);
      var g := GroupOf(s, key, ks[0]);
      if |Where(s, key, ks[0])| > 0 {
        assert ([g] + Groups(ks[1..], s, key))[1..] == Groups(ks[1..], s, key);
      }
    }
  }

  lemma {:induction false} KeySumEmpty<K>(ks: seq<K>, key: Record -> K)
    ensures KeySum(ks, [], key) == 0.0 && KeyCount(ks, [], key) == 0
  {
    if ks != [] {
      KeySumEmpty(ks[1..], key);
    }
  }

  /** Adding a row `x` in front adds its amount and one row to the sums, once, when its value is listed. */
  lemma {:induction false} KeySumCons<K>(ks: seq<K>, x: Record, t: seq<Record>, key: Record -> K)
    requires Sorting.NoDuplicates(ks)
    ensures KeySum(ks, [x] + t, key) == KeySum(ks, t, key) + (if key(x) in ks then x.amount else 0.0)
    ensures KeyCount(ks, [x] + t, key) == KeyCount(ks, t, key) + (if key(x) in ks then 1 else 0)
  {
    if ks != [] {
      assert Sorting.NoDuplicates(ks[1..]);
      KeySumCons(ks[1..], x, t, key);
      var w := Where([x] + t, key, ks[0]);
      assert ([x] + t)[1..] == t;
      if key(x) == ks[0] {
        assert w == [x] + Where(t, key, ks[0]);
        assert w[1..] == Where(t, key, ks[0]);
        assert key(x) !in ks[1..];
      } else {
        assert w == Where(t, key, ks[0]);
      }
    }
  }

  lemma {:induction false} KeySumsPartition<K>(ks: seq<K>, s: seq<Record>, key: Record -> K)
    requires Sorting.NoDuplicates(ks)
    requires forall x :: x in s ==> key(x) in ks
    ensures KeySum(ks, s, key) == SumAmounts(s)
    ensures KeyCount(ks, s, key) == |s|
  {
    if s == [] {
      KeySumEmpty(ks, key);
    } else {
      assert s == [s[0]] + s[1..];
      KeySumsPartition(ks, s[1..], key);
      KeySumCons(ks, s[0], s[1..], key);
    }
  }

  /** When every row's value is listed once in `ks`, the groups split the rows: their totals add
      up to the sum of all amounts and their counts to the number of rows. */
  lemma GroupsPartition<K>(ks: seq<K>, s: seq<Record>, key: Record -> K)
    requires Sorting.NoDuplicates(ks)
    requires forall x :: x in s ==> key(x) in ks
    ensures TotalOf(Groups(ks, s, key)) == SumAmounts(s)
    ensures CountOf(Groups(ks, s, key)) == |s|
  {
    GroupsSumKeySums(ks, s, key);
    KeySumsPartition(ks, s, key);
  }

  /** There are no groups exactly when there are no rows. */
  lemma GroupsEmpty<K>(ks: seq<K>, s: seq<Record>, key: Record -> K)
    requires forall x :: x in s ==> key(x) in ks
    ensures Groups(ks, s, key) == [] <==> s == []
  {
    if s != [] {
      assert s[0] in s;
      assert GroupOf(s, key, key(s[0])) in Groups(ks, s, key);
    }
  }

  lemma {:induction false} InsertKeepsSums<K>(g: Group<K>, gs: seq<Group<K>>, before: (Group<K>, Group<K>) -> bool)
    ensures TotalOf(Sorting.Insert(g, gs, before)) == g.total + TotalOf(gs)
    ensures CountOf(Sorting.Insert(g, gs, before)) == g.count + CountOf(gs)
  {
    if gs != [] && !before(g, gs[0]) {
      InsertKeepsSums(g, gs[1..], before);
      var r := Sorting.Insert(g, gs, before);
      assert r[0] == gs[0] && r[1..] == Sorting.Insert(g, gs[1..], before);
    } else if gs != [] {
      assert ([g] + gs)[1..] == gs;
    }
  }

  /** `ORDER BY` reorders the groups without changing what they add up to. */
  lemma {:induction false} SortKeepsSums<K(!new)>(gs: seq<Group<K>>, before: (Group<K>, Group<K>) -> bool)
    requires Sorting.Total(before) && Sorting.Transitive(before)
    ensures TotalOf(Sorting.SortBy(gs, before)) == TotalOf(gs)
    ensures CountOf(Sorting.SortBy(gs, before)) == CountOf(gs)
  {
    if gs != [] {
      SortKeepsSums(gs[1..], before);
      InsertKeepsSums(gs[0], Sorting.SortBy(gs[1..], before), before);
    }
  }

  /** Sorted by a rank whose name tells the groups' values apart, the groups are in strictly
      decreasing order, each listed once, and they are exactly the groups of the rows. */
  lemma SortedGroupsStrict<K(!new)>(ks: seq<K>, s: seq<Record>, key: Record -> K,
                                    before: (Group<K>, Group<K>) -> bool, rank: Group<K> -> Sorting.Rank)
    requires Sorting.NoDuplicates(ks)
    requires Sorting.Total(before) && Sorting.Transitive(before)
    requires forall a, b :: before(a, b) ==> Sorting.Precedes(rank(a), rank(b))
    requires forall a, b :: rank(a).name == rank(b).name ==> a.key == b.key
    ensures var gs := Sorting.SortBy(Groups(ks, s, key), before);
      && Sorting.NoDuplicates(gs)
      && (forall g :: g in gs <==> g in Groups(ks, s, key))
      && (forall i, j :: 0 <= i < j < |gs| ==> Sorting.StrictlyPrecedes(rank(gs[i]), rank(gs[j])))
  {
    var gs0 := Groups(ks, s, key);
    var gs := Sorting.SortBy(gs0, before);
    GroupsNoDuplicates(ks, s, key);
    Sorting.SortByNoDuplicates(gs0, before);
    assert forall g :: g in gs <==> g in gs0 by {
      assert multiset(gs) == multiset(gs0);
      forall g
        ensures g in gs <==> g in gs0
      {
        assert g in gs <==> g in multiset(gs);
        assert g in gs0 <==> g in multiset(gs0);
      }
    }
    forall i, j | 0 <= i < j < |gs|
      ensures Sorting.StrictlyPrecedes(rank(gs[i]), rank(gs[j]))
    {
      assert gs[i] in gs0 && gs[j] in gs0;
      assert gs[i] == GroupOf(s, key, gs[i].key) && gs[j] == GroupOf(s, key, gs[j].key);
      assert gs[i].key != gs[j].key;
      Sorting.PrecedesStrict(rank(gs[i]), rank(gs[j]));
    }
  }

  /** A sequence holding exactly the groups of the rows has an entry for the value of every row
      and only entries with rows, each the aggregate of its value. */
  lemma GroupsCover<K>(ks: seq<K>, s: seq<Record>, key: Record -> K, gs: seq<Group<K>>)
    requires forall x :: x in s ==> key(x) in ks
    requires forall g :: g in gs <==> g in Groups(ks, s, key)
    ensures forall i :: 0 <= i < |gs| ==> gs[i] == GroupOf(s, key, gs[i].key) && gs[i].count > 0
    ensures forall x :: x in s ==> exists i :: 0 <= i < |gs| && gs[i].key == key(x)
  {
    forall i | 0 <= i < |gs|
      ensures gs[i] == GroupOf(s, key, gs[i].key) && gs[i].count > 0
    {
      assert gs[i] in Groups(ks, s, key);
    }
    forall x | x in s
      ensures exists i :: 0 <= i < |gs| && gs[i].key == key(x)
    {
      assert GroupOf(s, key, key(x)) in gs;
      var i :| 0 <= i < |gs| && gs[i] == GroupOf(s, key, key(x));
    }
  }
}
