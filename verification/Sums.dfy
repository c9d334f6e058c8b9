/** Sums over finite maps, used wherever a contract keeps a running total next
    to the individual amounts it is supposed to be the total of. */
module Sums {

  /** A storage read with the default 0 that every numeric getter uses. */
  function Get<K>(m: map<K, int>, k: K): int {
    if k in m then m[k] else 0
  }

  /** The sum of all values of a map. */
  ghost function Total<K>(m: map<K, int>): int
    decreases |m|
  {
    if m == map[] then 0 else
      var k :| k in m;
      m[k] + Total(m - {k})
  }

  ghost predicate NonNegative<K>(m: map<K, int>) {
    forall k :: k in m ==> m[k] >= 0
  }

  /** The summation order does not matter: any key can be taken out first. */
  lemma {:induction false} TotalSplit<K>(m: map<K, int>, k: K)
    requires k in m
    ensures Total(m) == m[k] + Total(m - {k})
    decreases |m|
  {
    var p :| p in m && Total(m) == m[p] + Total(m - {p});
    if p != k {
      TotalSplit(m - {p}, k);
      TotalSplit(m - {k}, p);
      assert m - {p} - {k} == m - {k} - {p};
    }
  }

  lemma TotalUpdate<K>(m: map<K, int>, k: K, v: int)
    ensures Total(m[k := v]) == Total(m) - Get(m, k) + v
  {
    TotalSplit(m[k := v], k);
    assert m[k := v] - {k} == m - {k};
    if k in m {
      TotalSplit(m, k);
    } else {
      assert m - {k} == m;
    }
  }

  lemma {:induction false} TotalNonNegative<K>(m: map<K, int>)
    requires NonNegative(m)
    ensures Total(m) >= 0
    decreases |m|
  {
    if m != map[] {
      var k :| k in m;
      TotalSplit(m, k);
      TotalNonNegative(m - {k});
    }
  }

  lemma {:induction false} AllZero<K>(m: map<K, int>)
    requires forall k :: k in m ==> m[k] == 0
    ensures Total(m) == 0
    decreases |m|
  {
    if k :| k in m {
      TotalSplit(m, k);
      AllZero(m - {k});
    }
  }

  /** No part of a non-negative map exceeds the whole. */
  lemma {:induction false} TotalPart<K>(part: map<K, int>, whole: map<K, int>)
    requires NonNegative(whole)
    requires forall k :: k in part ==> k in whole && part[k] <= whole[k]
    ensures Total(part) <= Total(whole)
    decreases |part|
  {
    if part == map[] {
      TotalNonNegative(whole);
    } else {
      var k :| k in part;
      TotalSplit(part, k);
      TotalSplit(whole, k);
      TotalPart(part - {k}, whole - {k});
    }
  }

  /** Two disjoint parts `a` and `b` of `u` that cover it. */
  ghost predicate Splits<K(!new)>(u: map<K, int>, a: map<K, int>, b: map<K, int>) {
    && (u.Keys == a.Keys + b.Keys)
    && (forall k :: k in a ==> k !in b && u[k] == a[k])
    && (forall k :: k in b ==> u[k] == b[k])
  }

  lemma SplitsWithout<K(!new)>(u: map<K, int>, a: map<K, int>, b: map<K, int>, k: K)
    requires Splits(u, a, b) && k in a
    ensures k in u && u[k] == a[k]
    ensures Splits(u - {k}, a - {k}, b)
  {
  }

  lemma SplitsNothing<K(!new)>(u: map<K, int>, a: map<K, int>, b: map<K, int>)
    requires Splits(u, a, b) && a == map[]
    ensures Total(u) == Total(a) + Total(b)
  {
    assert u == b;
  }

  lemma {:induction false} TotalUnion<K(!new)>(u: map<K, int>, a: map<K, int>, b: map<K, int>)
    requires Splits(u, a, b)
    ensures Total(u) == Total(a) + Total(b)
    decreases |a|
  {
    if k :| k in a {
      SplitsWithout(u, a, b, k);
      TotalUnion(u - {k}, a - {k}, b);
      TotalSplit(a, k);
      TotalSplit(u, k);
    } else {
      SplitsNothing(u, a, b);
    }
  }

  // ---- Grouped sums: every key may belong to one group ----

  /** The members of group `g`, with their amounts. */
  ghost function Group<K, G>(m: map<K, int>, group: map<K, G>, g: G): map<K, int> {
    map k | k in m && k in group && group[k] == g :: m[k]
  }

  /** The members of any group in `gs`. */
  ghost function Groups<K, G>(m: map<K, int>, group: map<K, G>, gs: set<G>): map<K, int> {
    map k | k in m && k in group && group[k] in gs :: m[k]
  }

  ghost function GroupTotals<K, G>(m: map<K, int>, group: map<K, G>, gs: set<G>): map<G, int> {
    map g | g in gs :: Total(Group(m, group, g))
  }

  /** Summing group by group is summing once over all members: nobody is
      counted twice and nobody is lost. */
  lemma {:induction false} GroupsPartition<K(!new), G>(m: map<K, int>, group: map<K, G>, gs: set<G>)
    ensures Total(GroupTotals(m, group, gs)) == Total(Groups(m, group, gs))
    decreases |gs|
  {
    if gs == {} {
      assert GroupTotals(m, group, gs) == map[];
      assert Groups(m, group, gs) == map[];
    } else {
      var g :| g in gs;
      var rest := gs - {g};
      GroupsPartition(m, group, rest);
      TotalSplit(GroupTotals(m, group, gs), g);
      assert GroupTotals(m, group, gs) - {g} == GroupTotals(m, group, rest);
      TotalUnion(Groups(m, group, gs), Group(m, group, g), Groups(m, group, rest));
    }
  }
}
