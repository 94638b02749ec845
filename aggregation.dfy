/** `.values(...).annotate(Count(...))` and `.order_by(...)[:n]` over an in-memory table:
    grouping rows by a key, counting them and their distinct non-null tags, ordering the
    groups and keeping a prefix. */
module Aggregation {
  import opened Wrappers

  /** One aggregate row: its grouping key, `Count("id")`, and the values behind a
      `Count(column, distinct=True)` (NULL is not counted). */
  datatype Group<K> = Group(key: K, count: nat, ids: set<int>)

  /** A row after `.annotate(...)`: its grouping key and the column a distinct count counts. */
  datatype Annotated<K> = Annotated(key: K, tag: Option<int>)

  function RowKey<K>(a: Annotated<K>): K { a.key }

  function RowTag<K>(a: Annotated<K>): Option<int> { a.tag }

  /** The contribution of one row to a distinct count. */
  function TagSet(t: Option<int>): (s: set<int>)
    ensures t.Some? ==> s == {t.value}
    ensures t.None? ==> s == {}
  {
    if t.Some? then {t.value} else {}
  }

  /** The number of rows whose key is `k`. */
  function CountFor<R, K(==)>(rows: seq<R>, key: R -> K, k: K): nat {
    if rows == [] then 0
    else CountFor(rows[..|rows| - 1], key, k) + (if key(rows[|rows| - 1]) == k then 1 else 0)
  }

  /** The non-null tags of the rows whose key is `k`. */
  function IdsFor<R, K(==)>(rows: seq<R>, key: R -> K, tag: R -> Option<int>, k: K): set<int> {
    if rows == [] then {}
    else IdsFor(rows[..|rows| - 1], key, tag, k) + (if key(rows[|rows| - 1]) == k then TagSet(tag(rows[|rows| - 1])) else {})
  }

  /** A key no row has counts nothing. */
  lemma {:induction false} AbsentKey<R, K>(rows: seq<R>, key: R -> K, tag: R -> Option<int>, k: K)
    requires forall i :: 0 <= i < |rows| ==> key(rows[i]) != k
    ensures CountFor(rows, key, k) == 0 && IdsFor(rows, key, tag, k) == {}
  {
    if rows != [] {
      AbsentKey(rows[..|rows| - 1], key, tag, k);
    }
  }

  /** A distinct count never exceeds the row count. */
  lemma {:induction false} IdsWithinCount<R, K>(rows: seq<R>, key: R -> K, tag: R -> Option<int>, k: K)
    ensures |IdsFor(rows, key, tag, k)| <= CountFor(rows, key, k)
  {
    if rows != [] {
      var init := rows[..|rows| - 1];
      IdsWithinCount(init, key, tag, k);
      var extra := if key(rows[|rows| - 1]) == k then TagSet(tag(rows[|rows| - 1])) else {};
      assert |IdsFor(init, key, tag, k) + extra| <= |IdsFor(init, key, tag, k)| + |extra|;
    }
  }

  predicate HasKey<K(==)>(gs: seq<Group<K>>, k: K) {
    exists i :: 0 <= i < |gs| && gs[i].key == k
  }

  predicate DistinctKeys<K(==)>(gs: seq<Group<K>>) {
    forall i, j :: 0 <= i < j < |gs| ==> gs[i].key != gs[j].key
  }

  /** The sum of the counts. */
  function TotalCount<K>(gs: seq<Group<K>>): nat {
    if gs == [] then 0 else TotalCount(gs[..|gs| - 1]) + gs[|gs| - 1].count
  }

  lemma {:induction false} TotalCountUpdate<K>(gs: seq<Group<K>>, i: int, g: Group<K>)
    requires 0 <= i < |gs|
    ensures TotalCount(gs[i := g]) == TotalCount(gs) - gs[i].count + g.count
  {
    if i < |gs| - 1 {
      assert gs[i := g][..|gs| - 1] == gs[..|gs| - 1][i := g];
      TotalCountUpdate(gs[..|gs| - 1], i, g);
    } else {
      assert gs[i := g][..|gs| - 1] == gs[..|gs| - 1];
    }
  }

  /** The position of the group with key `k`, or `|gs|` when there is none. */
  function IndexOf<K(==)>(gs: seq<Group<K>>, k: K): (i: nat)
    ensures i <= |gs|
    ensures i < |gs| ==> gs[i].key == k
    ensures i == |gs| ==> !HasKey(gs, k)
  {
    if gs == [] then 0
    else if gs[0].key == k then 0
    else
      var j := IndexOf(gs[1..], k);
      if j == |gs| - 1 then
        assert forall m :: 1 <= m < |gs| ==> gs[m] == gs[1..][m - 1];
        j + 1
      else j + 1
  }

  /** Folds one row into the groups: its group grows, or a new group is appended. */
  function AddRow<K(==)>(gs: seq<Group<K>>, k: K, t: Option<int>): seq<Group<K>> {
    var i := IndexOf(gs, k);
    if i == |gs| then gs + [Group(k, 1, TagSet(t))]
    else gs[i := Group(k, gs[i].count + 1, gs[i].ids + TagSet(t))]
  }

  /** GROUP BY `key`, groups in order of first appearance. */
  function GroupBy<R, K(==)>(rows: seq<R>, key: R -> K, tag: R -> Option<int>): (gs: seq<Group<K>>)
    ensures |gs| <= |rows|
  {
    if rows == [] then []
    else AddRow(GroupBy(rows[..|rows| - 1], key, tag), key(rows[|rows| - 1]), tag(rows[|rows| - 1]))
  }

  /** `.values(key).annotate(count=Count("id"), ids=Count(tag, distinct=True))`. */
  function Aggregate<K(==)>(rows: seq<Annotated<K>>): (gs: seq<Group<K>>)
    ensures |gs| <= |rows|
  {
    GroupBy(rows, RowKey, RowTag)
  }

  /** Every group's key is the key of some row, so whatever holds of every row's key holds
      of every group's. */
  lemma {:induction false} GroupKeysFromRows<R, K>(rows: seq<R>, key: R -> K, tag: R -> Option<int>, p: K -> bool)
    requires forall i :: 0 <= i < |rows| ==> p(key(rows[i]))
    ensures forall g :: g in GroupBy(rows, key, tag) ==> p(g.key)
  {
    if rows != [] {
      GroupKeysFromRows(rows[..|rows| - 1], key, tag, p);
    }
  }

  /** `gs` is the aggregate of `rows`: one group per key present, each with that key's row
      count and distinct tags. */
  ghost predicate IsGrouping<R(!new), K>(gs: seq<Group<K>>, rows: seq<R>, key: R -> K, tag: R -> Option<int>) {
    && DistinctKeys(gs)
    && (forall i :: 0 <= i < |gs| ==>
          gs[i].count == CountFor(rows, key, gs[i].key) && gs[i].count >= 1
          && gs[i].ids == IdsFor(rows, key, tag, gs[i].key) && |gs[i].ids| <= gs[i].count)
    && (forall r :: r in rows ==> HasKey(gs, key(r)))
    && TotalCount(gs) == |rows|
  }

  /** Every key present gets exactly one group. */
  lemma {:induction false} GroupByKeys<R(!new), K>(rows: seq<R>, key: R -> K, tag: R -> Option<int>)
    ensures DistinctKeys(GroupBy(rows, key, tag))
    ensures forall r :: r in rows ==> HasKey(GroupBy(rows, key, tag), key(r))
  {
    if rows != [] {
      var init := rows[..|rows| - 1];
      var last := rows[|rows| - 1];
      assert rows == init + [last];
      GroupByKeys(init, key, tag);
      var gs := GroupBy(init, key, tag);
      var gs' := GroupBy(rows, key, tag);
      var i := IndexOf(gs, key(last));
      forall r | r in rows ensures HasKey(gs', key(r)) {
        if r in init {
          var j :| 0 <= j < |gs| && gs[j].key == key(r);
          assert gs'[j].key == key(r);
        } else {
          assert gs'[if i == |gs| then |gs| else i].key == key(r);
        }
      }
    }
  }

  /** Each group carries its key's row count, at least one, and its key's distinct tags. */
  lemma {:induction false} GroupByCounts<R(!new), K>(rows: seq<R>, key: R -> K, tag: R -> Option<int>)
    ensures forall i :: 0 <= i < |GroupBy(rows, key, tag)| ==>
              GroupBy(rows, key, tag)[i].count == CountFor(rows, key, GroupBy(rows, key, tag)[i].key) >= 1
              && GroupBy(rows, key, tag)[i].ids == IdsFor(rows, key, tag, GroupBy(rows, key, tag)[i].key)
  {
    if rows != [] {
      var init := rows[..|rows| - 1];
      var last := rows[|rows| - 1];
      var k := key(last);
      assert rows == init + [last];
      GroupByCounts(init, key, tag);
      GroupByKeys(init, key, tag);
      var gs := GroupBy(init, key, tag);
      var i := IndexOf(gs, k);
      if i == |gs| {
        forall j | 0 <= j < |init| ensures key(init[j]) != k {
          assert init[j] in init;
        }
        AbsentKey(init, key, tag, k);
      }
    }
  }

  /** The counts add up to the number of rows. */
  lemma {:induction false} GroupByTotal<R, K>(rows: seq<R>, key: R -> K, tag: R -> Option<int>)
    ensures TotalCount(GroupBy(rows, key, tag)) == |rows|
  {
    if rows != [] {
      var init := rows[..|rows| - 1];
      var last := rows[|rows| - 1];
      GroupByTotal(init, key, tag);
      var gs := GroupBy(init, key, tag);
      var i := IndexOf(gs, key(last));
      if i == |gs| {
        assert (gs + [Group(key(last), 1, TagSet(tag(last)))])[..|gs|] == gs;
      } else {
        TotalCountUpdate(gs, i, Group(key(last), gs[i].count + 1, gs[i].ids + TagSet(tag(last))));
      }
    }
  }

  lemma GroupByCorrect<R(!new), K>(rows: seq<R>, key: R -> K, tag: R -> Option<int>)
    ensures IsGrouping(GroupBy(rows, key, tag), rows, key, tag)
  {
    GroupByKeys(rows, key, tag);
    GroupByCounts(rows, key, tag);
    GroupByTotal(rows, key, tag);
    var gs := GroupBy(rows, key, tag);
    forall i | 0 <= i < |gs| ensures |gs[i].ids| <= gs[i].count {
      IdsWithinCount(rows, key, tag, gs[i].key);
    }
  }

  // ----- Ordering -----

  /** `le` orders any two values, transitively. */
  ghost predicate TotalPreorder<T(!new)>(le: (T, T) -> bool) {
    && (forall a, b :: le(a, b) || le(b, a))
    && (forall a, b, c :: le(a, b) && le(b, c) ==> le(a, c))
  }

  predicate Sorted<T>(xs: seq<T>, le: (T, T) -> bool) {
    forall i, j :: 0 <= i < j < |xs| ==> le(xs[i], xs[j])
  }

  /** Places `x` before the first element it orders at or before. */
  function Insert<T>(x: T, xs: seq<T>, le: (T, T) -> bool): (r: seq<T>)
    ensures multiset(r) == multiset(xs) + multiset{x}
  {
    if xs == [] || le(x, xs[0]) then [x] + xs
    else
      assert xs == [xs[0]] + xs[1..];
      [xs[0]] + Insert(x, xs[1..], le)
  }

  /** A stable sort that keeps equally ordered values in their original order. */
  function Sort<T>(xs: seq<T>, le: (T, T) -> bool): (r: seq<T>)
    ensures multiset(r) == multiset(xs)
    ensures |r| == |xs|
  {
    if xs == [] then []
    else
      assert xs == [xs[0]] + xs[1..];
      var r := Insert(xs[0], Sort(xs[1..], le), le);
      assert |r| == |multiset(r)|;
      r
  }

  lemma {:induction false} InsertSorted<T(!new)>(x: T, xs: seq<T>, le: (T, T) -> bool)
    requires TotalPreorder(le) && Sorted(xs, le)
    ensures Sorted(Insert(x, xs, le), le)
  {
    if xs != [] && !le(x, xs[0]) {
      var rest := Insert(x, xs[1..], le);
      InsertSorted(x, xs[1..], le);
      forall y | y in rest ensures le(xs[0], y) {
        assert y in multiset(rest);
        if y != x {
          var k :| 0 <= k < |xs[1..]| && xs[1..][k] == y;
          assert xs[k + 1] == y;
        }
      }
      var r := [xs[0]] + rest;
      forall i, j | 0 <= i < j < |r| ensures le(r[i], r[j]) {
        if i == 0 {
          assert r[j] == rest[j - 1];
          assert r[j] in rest;
        } else {
          assert r[i] == rest[i - 1] && r[j] == rest[j - 1];
        }
      }
    }
  }

  lemma {:induction false} SortSorted<T(!new)>(xs: seq<T>, le: (T, T) -> bool)
    requires TotalPreorder(le)
    ensures Sorted(Sort(xs, le), le)
  {
    if xs != [] {
      SortSorted(xs[1..], le);
      InsertSorted(xs[0], Sort(xs[1..], le), le);
    }
  }

  lemma {:induction false} TotalCountInsert<K>(x: Group<K>, xs: seq<Group<K>>, le: (Group<K>, Group<K>) -> bool)
    ensures TotalCount(Insert(x, xs, le)) == x.count + TotalCount(xs)
  {
    if xs != [] && !le(x, xs[0]) {
      TotalCountInsert(x, xs[1..], le);
      TotalCountCons(xs[0], Insert(x, xs[1..], le));
      TotalCountCons(xs[0], xs[1..]);
      assert xs == [xs[0]] + xs[1..];
    } else {
      TotalCountCons(x, xs);
    }
  }

  lemma {:induction false} TotalCountCons<K>(g: Group<K>, gs: seq<Group<K>>)
    ensures TotalCount([g] + gs) == g.count + TotalCount(gs)
  {
    if gs != [] {
      assert ([g] + gs)[..|gs|] == [g] + gs[..|gs| - 1];
      TotalCountCons(g, gs[..|gs| - 1]);
    }
  }

  /** Reordering the groups keeps the total. */
  lemma {:induction false} TotalCountSort<K>(gs: seq<Group<K>>, le: (Group<K>, Group<K>) -> bool)
    ensures TotalCount(Sort(gs, le)) == TotalCount(gs)
  {
    if gs != [] {
      TotalCountSort(gs[1..], le);
      TotalCountInsert(gs[0], Sort(gs[1..], le), le);
      TotalCountCons(gs[0], gs[1..]);
      assert gs == [gs[0]] + gs[1..];
    }
  }

  // ----- Distinctness under reordering -----

  predicate Distinct<T(==)>(xs: seq<T>) {
    forall i, j :: 0 <= i < j < |xs| ==> xs[i] != xs[j]
  }

  lemma {:induction false} DistinctOccursOnce<T>(xs: seq<T>, x: T)
    requires Distinct(xs)
    ensures multiset(xs)[x] <= 1
  {
    if xs != [] {
      assert xs == [xs[0]] + xs[1..];
      DistinctOccursOnce(xs[1..], x);
      if xs[0] == x {
        assert x !in xs[1..];
      }
    }
  }

  lemma RepeatOccursTwice<T>(xs: seq<T>, i: int, j: int)
    requires 0 <= i < j < |xs| && xs[i] == xs[j]
    ensures multiset(xs)[xs[i]] >= 2
  {
    assert xs == xs[..j] + [xs[j]] + xs[j + 1..];
    assert xs[..j][i] == xs[i];
  }

  /** A reordering of a sequence without repeats has none. */
  lemma PermutationDistinct<T>(a: seq<T>, b: seq<T>)
    requires multiset(a) == multiset(b) && Distinct(a)
    ensures Distinct(b)
  {
    forall i, j | 0 <= i < j < |b| ensures b[i] != b[j] {
      if b[i] == b[j] {
        RepeatOccursTwice(b, i, j);
        DistinctOccursOnce(a, b[i]);
      }
    }
  }

  /** A reordering of groups with distinct keys has distinct keys. */
  lemma PermutationDistinctKeys<K>(a: seq<Group<K>>, b: seq<Group<K>>)
    requires multiset(a) == multiset(b) && DistinctKeys(a)
    ensures DistinctKeys(b)
  {
    assert Distinct(a);
    PermutationDistinct(a, b);
    forall i, j | 0 <= i < j < |b| ensures b[i].key != b[j].key {
      assert b[i] in multiset(a) && b[j] in multiset(a);
      var p :| 0 <= p < |a| && a[p] == b[i];
      var q :| 0 <= q < |a| && a[q] == b[j];
      if p < q { assert a[p].key != a[q].key; }
      if q < p { assert a[q].key != a[p].key; }
    }
  }

  // ----- Keeping the first n -----

  /** `qs.order_by("-count")`, leaving equal counts in group order. */
  function ByCountDesc<K>(gs: seq<Group<K>>): (r: seq<Group<K>>)
    ensures multiset(r) == multiset(gs)
  {
    Sort(gs, (a: Group<K>, b: Group<K>) => a.count >= b.count)
  }

  /** `qs.order_by("-count")[:n]`. */
  function TopByCount<K>(gs: seq<Group<K>>, n: nat): (r: seq<Group<K>>)
    ensures |r| == if |gs| < n then |gs| else n
  {
    var sorted := ByCountDesc(gs);
    assert |sorted| == |gs| by { assert |multiset(sorted)| == |multiset(gs)|; }
    sorted[..if |gs| < n then |gs| else n]
  }

  /** The kept groups come from the input, run by non-increasing count, and no group left
      out has more rows than any group kept. */
  lemma TopByCountCorrect<K(!new)>(gs: seq<Group<K>>, n: nat)
    ensures forall g :: g in TopByCount(gs, n) ==> g in gs
    ensures forall i, j :: 0 <= i < j < |TopByCount(gs, n)| ==> TopByCount(gs, n)[i].count >= TopByCount(gs, n)[j].count
    ensures forall g, i :: g in gs && g !in TopByCount(gs, n) && 0 <= i < |TopByCount(gs, n)| ==> g.count <= TopByCount(gs, n)[i].count
    ensures DistinctKeys(gs) ==> DistinctKeys(TopByCount(gs, n))
  {
    var le := (a: Group<K>, b: Group<K>) => a.count >= b.count;
    var sorted := ByCountDesc(gs);
    SortSorted(gs, le);
    var m := if |gs| < n then |gs| else n;
    var top := TopByCount(gs, n);
    assert |sorted| == |gs| by { assert |multiset(sorted)| == |multiset(gs)|; }
    assert top == sorted[..m];
    forall g | g in top ensures g in gs {
      assert g in multiset(sorted);
    }
    forall g, i | g in gs && g !in top && 0 <= i < |top| ensures g.count <= top[i].count {
      assert g in multiset(sorted);
      var j :| 0 <= j < |sorted| && sorted[j] == g;
      assert le(sorted[i], sorted[j]);
    }
    if DistinctKeys(gs) {
      PermutationDistinctKeys(gs, sorted);
    }
  }

  // ----- Dictionaries over groups -----

  /** `{g[key]: g[count] for g in groups}`. */
  function CountMap<K(!new)>(gs: seq<Group<K>>): (m: map<K, nat>)
    ensures forall k :: k in m <==> HasKey(gs, k)
    ensures forall i :: 0 <= i < |gs| ==> gs[i].key in m
    ensures DistinctKeys(gs) ==> forall i :: 0 <= i < |gs| ==> m[gs[i].key] == gs[i].count
  {
    if gs == [] then map[]
    else
      var init := gs[..|gs| - 1];
      var m := CountMap(init)[gs[|gs| - 1].key := gs[|gs| - 1].count];
      assert forall i :: 0 <= i < |init| ==> init[i] == gs[i];
      m
  }

  /** `m.get(k, 0)`. */
  function CountOr0<K>(m: map<K, nat>, k: K): (n: nat)
    ensures k in m ==> n == m[k]
    ensures k !in m ==> n == 0
  {
    if k in m then m[k] else 0
  }

  /** The keys of the groups, in order. */
  function Keys<K(!new)>(gs: seq<Group<K>>): (ks: seq<K>)
    ensures |ks| == |gs| && forall i :: 0 <= i < |gs| ==> ks[i] == gs[i].key
    ensures DistinctKeys(gs) ==> Distinct(ks)
    ensures forall k :: k in ks <==> HasKey(gs, k)
  {
    seq(|gs|, i requires 0 <= i < |gs| => gs[i].key)
  }

  /** Ordering an aggregate keeps it the aggregate of the same rows. */
  lemma SortedAggregate<K(!new)>(rows: seq<Annotated<K>>, le: (Group<K>, Group<K>) -> bool)
    requires TotalPreorder(le)
    ensures Sorted(Sort(Aggregate(rows), le), le)
    ensures IsGrouping(Sort(Aggregate(rows), le), rows, RowKey, RowTag)
  {
    var a := Aggregate(rows);
    GroupByCorrect(rows, RowKey, RowTag);
    SortSorted(a, le);
    TotalCountSort(a, le);
    PermutedGrouping(a, Sort(a, le), rows);
  }

  /** A grouping listed in another order is still a grouping of the same rows. */
  lemma PermutedGrouping<K(!new)>(a: seq<Group<K>>, b: seq<Group<K>>, rows: seq<Annotated<K>>)
    requires IsGrouping(a, rows, RowKey, RowTag)
    requires multiset(a) == multiset(b) && TotalCount(b) == TotalCount(a)
    ensures IsGrouping(b, rows, RowKey, RowTag)
  {
    PermutationDistinctKeys(a, b);
    forall i | 0 <= i < |b|
      ensures b[i].count == CountFor(rows, RowKey, b[i].key) && b[i].count >= 1
      ensures b[i].ids == IdsFor(rows, RowKey, RowTag, b[i].key) && |b[i].ids| <= b[i].count
    {
      assert b[i] in multiset(a);
    }
    forall r | r in rows ensures HasKey(b, RowKey(r)) {
      var p :| 0 <= p < |a| && a[p].key == RowKey(r);
      assert a[p] in multiset(b);
    }
  }

  /** `{g.key: g.count for g in aggregate}.get(k, 0)` is the number of rows with key `k`. */
  lemma CountMapCounts<K(!new)>(rows: seq<Annotated<K>>, k: K)
    ensures CountOr0(CountMap(Aggregate(rows)), k) == CountFor(rows, RowKey, k)
  {
    var gs := Aggregate(rows);
    GroupByKeys(rows, RowKey, RowTag);
    GroupByCounts(rows, RowKey, RowTag);
    if HasKey(gs, k) {
      var i :| 0 <= i < |gs| && gs[i].key == k;
    } else {
      forall j | 0 <= j < |rows| ensures RowKey(rows[j]) != k {
        assert rows[j] in rows;
      }
      AbsentKey(rows, RowKey, RowTag, k);
    }
  }

  /** The values of `xs` without repeats, first occurrences kept. */
  function Dedup<T(==,!new)>(xs: seq<T>): (r: seq<T>)
    ensures Distinct(r)
    ensures forall x :: x in r <==> x in xs
  {
    if xs == [] then []
    else
      var d := Dedup(xs[..|xs| - 1]);
      var last := xs[|xs| - 1];
      assert xs == xs[..|xs| - 1] + [last];
      if last in d then d else d + [last]
  }
}
