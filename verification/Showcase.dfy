/** The showcase order: by rarity, the rarest first, and stable. */
module Showcase {
  import opened Host

  datatype Rarity = Legendary | Epic | Rare | Uncommon | Common

  datatype Certificate = Certificate(
    id: nat, owner: Address, puzzle: string, completedAt: nat, seconds: nat, rank: nat, rarity: Rarity,
    transferable: bool, burned: bool)

  function FromSeconds(seconds: nat): Rarity {
    if seconds <= 60 then Legendary
    else if seconds <= 300 then Epic
    else if seconds <= 900 then Rare
    else if seconds <= 3600 then Uncommon
    else Common
  }

  function Weight(c: Certificate): nat {
    match c.rarity case Legendary => 5 case Epic => 4 case Rare => 3 case Uncommon => 2 case Common => 1
  }

  /** A faster solution is never less rare. */
  lemma FasterIsRarer(a: Certificate, b: Certificate)
    requires a.rarity == FromSeconds(a.seconds) && b.rarity == FromSeconds(b.seconds)
    ensures a.seconds <= b.seconds ==> Weight(a) >= Weight(b)
    ensures Weight(a) > Weight(b) ==> a.seconds < b.seconds
  {
  }

  ghost predicate Sorted(s: seq<Certificate>) {
    forall i, j :: 0 <= i < j < |s| ==> Weight(s[i]) >= Weight(s[j])
  }

  /** Those of one weight, in their order. */
  ghost function OfWeight(s: seq<Certificate>, w: nat): seq<Certificate> {
    if s == [] then [] else
      var before := OfWeight(s[..|s| - 1], w);
      if Weight(s[|s| - 1]) == w then before + [s[|s| - 1]] else before
  }

  /** The rarest first, equals in their original order. */
  ghost function Ranked(s: seq<Certificate>): seq<Certificate> {
    OfWeight(s, 5) + OfWeight(s, 4) + OfWeight(s, 3) + OfWeight(s, 2) + OfWeight(s, 1)
  }

  ghost predicate StableOf(s: seq<Certificate>, original: seq<Certificate>) {
    forall w: nat :: OfWeight(s, w) == OfWeight(original, w)
  }

  lemma {:induction false} OfWeightConcat(a: seq<Certificate>, b: seq<Certificate>, w: nat)
    ensures OfWeight(a + b, w) == OfWeight(a, w) + OfWeight(b, w)
    decreases |b|
  {
    if b == [] {
      assert a + b == a;
    } else {
      assert (a + b)[..|a + b| - 1] == a + b[..|b| - 1];
      OfWeightConcat(a, b[..|b| - 1], w);
    }
  }

  lemma OfWeightPair(x: Certificate, y: Certificate, w: nat)
    requires Weight(x) != Weight(y)
    ensures OfWeight([x, y], w) == OfWeight([y, x], w)
  {
    assert [x, y][..1] == [x] && [y, x][..1] == [y];
    assert [x][..0] == [] && [y][..0] == [];
  }

  /** Swapping neighbours of different weight keeps the order within each weight. */
  lemma SwapIsStable(s: seq<Certificate>, j: nat, original: seq<Certificate>)
    requires 0 < j < |s| && Weight(s[j - 1]) != Weight(s[j]) && StableOf(s, original)
    ensures StableOf(s[j - 1 := s[j]][j := s[j - 1]], original)
  {
    var t := s[j - 1 := s[j]][j := s[j - 1]];
    var head, tail := s[..j - 1], s[j + 1..];
    assert s == head + [s[j - 1], s[j]] + tail;
    assert t == head + [s[j], s[j - 1]] + tail;
    forall w: nat ensures OfWeight(t, w) == OfWeight(original, w) {
      OfWeightConcat(head + [s[j - 1], s[j]], tail, w);
      OfWeightConcat(head, [s[j - 1], s[j]], w);
      OfWeightConcat(head + [s[j], s[j - 1]], tail, w);
      OfWeightConcat(head, [s[j], s[j - 1]], w);
      OfWeightPair(s[j - 1], s[j], w);
    }
  }

  lemma {:induction false} OfWeightMembers(s: seq<Certificate>, w: nat)
    ensures forall c :: c in OfWeight(s, w) <==> c in s && Weight(c) == w
    decreases |s|
  {
    if s != [] {
      assert s == s[..|s| - 1] + [s[|s| - 1]];
      OfWeightMembers(s[..|s| - 1], w);
    }
  }

  /** A sorted list is made up of its weights in falling order. */
  lemma {:induction false} SortedIsRanked(s: seq<Certificate>)
    requires Sorted(s)
    ensures s == Ranked(s)
    decreases |s|
  {
    if s != [] {
      SortedIsRanked(s[..|s| - 1]);
      assert s == s[..|s| - 1] + [s[|s| - 1]];
      LastRanked(s);
    }
  }

  /** Of a sorted list the last one goes to the end of its weight, behind which
      there is nothing. */
  lemma LastRanked(s: seq<Certificate>)
    requires s != [] && Sorted(s)
    ensures Ranked(s) == Ranked(s[..|s| - 1]) + [s[|s| - 1]]
  {
    var init, last := s[..|s| - 1], s[|s| - 1];
    forall w: nat | w < Weight(last) ensures OfWeight(init, w) == [] {
      NoneOfWeight(init, w);
    }
  }

  lemma {:induction false} NoneOfWeight(s: seq<Certificate>, w: nat)
    requires forall i :: 0 <= i < |s| ==> Weight(s[i]) != w
    ensures OfWeight(s, w) == []
    decreases |s|
  {
    if s != [] { NoneOfWeight(s[..|s| - 1], w); }
  }

  /** Sorted and stable determine the result. */
  lemma StableSortIsRanked(s: seq<Certificate>, original: seq<Certificate>)
    requires Sorted(s) && StableOf(s, original)
    ensures s == Ranked(original)
  {
    SortedIsRanked(s);
  }

  lemma {:induction false} RankedSize(s: seq<Certificate>)
    ensures |Ranked(s)| == |s| && multiset(Ranked(s)) == multiset(s)
    decreases |s|
  {
    if s != [] {
      assert s == s[..|s| - 1] + [s[|s| - 1]];
      RankedSize(s[..|s| - 1]);
    }
  }

  lemma OfWeightIsEven(s: seq<Certificate>, w: nat)
    ensures forall i :: 0 <= i < |OfWeight(s, w)| ==> Weight(OfWeight(s, w)[i]) == w
  {
    forall i | 0 <= i < |OfWeight(s, w)| ensures Weight(OfWeight(s, w)[i]) == w {
      OfWeightMembers(s, w);
      assert OfWeight(s, w)[i] in OfWeight(s, w);
    }
  }

  /** Those of the next lower weight go behind a sorted list. */
  lemma RankedStep(a: seq<Certificate>, s: seq<Certificate>, w: nat)
    requires Sorted(a) && forall i :: 0 <= i < |a| ==> Weight(a[i]) > w
    ensures var b := a + OfWeight(s, w); Sorted(b) && forall i :: 0 <= i < |b| ==> Weight(b[i]) >= w
  {
    OfWeightIsEven(s, w);
    SortedConcat(a, OfWeight(s, w), w);
  }

  lemma RankedIsSorted(s: seq<Certificate>)
    ensures Sorted(Ranked(s))
  {
    OfWeightIsEven(s, 5);
    RankedStep(OfWeight(s, 5), s, 4);
    RankedStep(OfWeight(s, 5) + OfWeight(s, 4), s, 3);
    RankedStep(OfWeight(s, 5) + OfWeight(s, 4) + OfWeight(s, 3), s, 2);
    RankedStep(OfWeight(s, 5) + OfWeight(s, 4) + OfWeight(s, 3) + OfWeight(s, 2), s, 1);
  }

  lemma SortedConcat(a: seq<Certificate>, b: seq<Certificate>, w: nat)
    requires Sorted(a) && Sorted(b)
    requires forall i :: 0 <= i < |a| ==> Weight(a[i]) >= w
    requires forall i :: 0 <= i < |b| ==> Weight(b[i]) <= w
    ensures Sorted(a + b)
  {
  }

  /** One certificate moves up past all less rare ones. */
  method MoveUp(a: array<Certificate>, i: nat, ghost original: seq<Certificate>)
    requires 0 < i < a.Length && Sorted(a[..i]) && StableOf(a[..], original)
    modifies a
    ensures Sorted(a[..i + 1]) && StableOf(a[..], original)
  {
    var j := i;
    while j > 0
      invariant 0 <= j <= i && StableOf(a[..], original)
      invariant forall p, q :: 0 <= p < q <= i && q != j ==> Weight(a[p]) >= Weight(a[q])
    {
      if Weight(a[j - 1]) >= Weight(a[j]) {
        break;
      }
      SwapIsStable(a[..], j, original);
      ghost var swapped := a[..][j - 1 := a[j]][j := a[j - 1]];
      a[j - 1], a[j] := a[j], a[j - 1];
      assert a[..] == swapped;
      j := j - 1;
    }
  }

  /** The insertion sort, in place. */
  method SortByRarity(a: array<Certificate>)
    modifies a
    ensures a[..] == Ranked(old(a[..]))
  {
    ghost var original := a[..];
    var i := 1;
    while i < a.Length
      invariant 1 <= i && (i <= a.Length || a.Length == 0)
      invariant Sorted(a[..if i <= a.Length then i else a.Length]) && StableOf(a[..], original)
    {
      MoveUp(a, i, original);
      i := i + 1;
    }
    assert a[..] == a[..if i <= a.Length then i else a.Length];
    StableSortIsRanked(a[..], original);
  }
}
