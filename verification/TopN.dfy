/** The ranked list that both leaderboard contracts rebuild on every update: the
    player's old entry is filtered out and the new one is inserted behind all
    entries with at least its score, as far as the cap allows. */
module TopN {
  import opened Host

  datatype Entry = Entry(player: Address, score: int, timestamp: nat)

  type Table = map<Address, int>

  function Take(s: seq<Entry>, n: nat): seq<Entry> {
    if |s| <= n then s else s[..n]
  }

  function Without(s: seq<Entry>, p: Address): seq<Entry> {
    if s == [] then []
    else
      var rest := Without(s[..|s| - 1], p);
      if s[|s| - 1].player == p then rest else rest + [s[|s| - 1]]
  }

  /** Where `score` belongs: before the first entry it beats. */
  function Slot(s: seq<Entry>, score: int): (k: nat)
    ensures k <= |s|
    ensures forall i :: 0 <= i < k ==> s[i].score >= score
    ensures k < |s| ==> score > s[k].score
  {
    if s == [] || score > s[0].score then 0 else 1 + Slot(s[1..], score)
  }

  /** The list with `e` in its slot. An entry that beats another one is inserted
      whatever the cap; everything else stops at the cap. */
  function Placed(s: seq<Entry>, e: Entry, cap: nat): seq<Entry> {
    PlacedAt(s, e, Slot(s, e.score), cap)
  }

  function PlacedAt(s: seq<Entry>, e: Entry, k: nat, cap: nat): seq<Entry>
    requires k <= |s|
  {
    var head := Take(s[..k], cap);
    if k < |s| then head + [e] + Take(s[k..], Room(|head|, cap))
    else if |head| < cap then head + [e]
    else head
  }

  function Room(used: nat, cap: nat): nat {
    if used >= cap then 0 else cap - used - 1
  }

  function Refreshed(s: seq<Entry>, e: Entry, cap: nat): seq<Entry> {
    Placed(Without(s, e.player), e, cap)
  }

  method FilterOut(list: seq<Entry>, p: Address) returns (filtered: seq<Entry>)
    ensures filtered == Without(list, p)
  {
    filtered := [];
    for i := 0 to |list|
      invariant filtered == Without(list[..i], p)
    {
      assert list[..i + 1][..i] == list[..i];
      if list[i].player != p {
        filtered := filtered + [list[i]];
      }
    }
    assert list[..|list|] == list;
  }

  function Pushed(out: seq<Entry>, x: Entry, cap: nat): seq<Entry> {
    if |out| < cap then out + [x] else out
  }

  lemma TakeOne(s: seq<Entry>, a: nat, b: nat, n: nat)
    requires a <= b < |s|
    ensures Take(s[a..b + 1], n) == Pushed(Take(s[a..b], n), s[b], n)
  {
    assert s[a..b + 1] == s[a..b] + [s[b]];
  }

  lemma PushBehind(head: seq<Entry>, e: Entry, tail: seq<Entry>, x: Entry, cap: nat)
    ensures Pushed(head + [e] + tail, x, cap) == head + [e] + Pushed(tail, x, Room(|head|, cap))
  {
  }

  /** What the insertion loop has put out after the first `i` entries. */
  ghost function Scanned(s: seq<Entry>, e: Entry, i: nat, cap: nat): seq<Entry>
    requires i <= |s|
  {
    var k := Slot(s, e.score);
    if i <= k then Take(s[0..i], cap)
    else
      var head := Take(s[0..k], cap);
      head + [e] + Take(s[k..i], Room(|head|, cap))
  }

  lemma ScanNext(s: seq<Entry>, e: Entry, i: nat, cap: nat)
    requires i < |s|
    ensures var out, k := Scanned(s, e, i, cap), Slot(s, e.score);
      Scanned(s, e, i + 1, cap) == Pushed(if i == k then out + [e] else out, s[i], cap)
  {
    var k := Slot(s, e.score);
    if i < k {
      TakeOne(s, 0, i, cap);
    } else {
      var head := Take(s[0..k], cap);
      TakeOne(s, k, i, Room(|head|, cap));
      PushBehind(head, e, Take(s[k..i], Room(|head|, cap)), s[i], cap);
      assert i == k ==> Scanned(s, e, i, cap) + [e] == head + [e] + Take(s[k..i], Room(|head|, cap));
    }
  }

  lemma ScanAll(s: seq<Entry>, e: Entry, cap: nat)
    ensures var out := Scanned(s, e, |s|, cap);
      Placed(s, e, cap) == if Slot(s, e.score) == |s| then Pushed(out, e, cap) else out
  {
    var k := Slot(s, e.score);
    assert s[0..|s|] == s && s[k..|s|] == s[k..] && s[0..k] == s[..k];
  }

  /** The insertion loop with its `inserted` flag. */
  method Insert(s: seq<Entry>, e: Entry, cap: nat) returns (out: seq<Entry>)
    ensures out == Placed(s, e, cap)
  {
    out := [];
    var inserted := false;
    for i := 0 to |s|
      invariant inserted <==> Slot(s, e.score) < i
      invariant out == Scanned(s, e, i, cap)
    {
      ScanNext(s, e, i, cap);
      if !inserted && e.score > s[i].score {
        out := out + [e];
        inserted := true;
      }
      out := Pushed(out, s[i], cap);
    }
    ScanAll(s, e, cap);
    if !inserted {
      out := Pushed(out, e, cap);
    }
  }

  method Refresh(list: seq<Entry>, e: Entry, cap: nat) returns (out: seq<Entry>)
    ensures out == Refreshed(list, e, cap)
  {
    var filtered := FilterOut(list, e.player);
    out := Insert(filtered, e, cap);
  }

  // ---- What the list promises ----

  ghost predicate Descending(s: seq<Entry>) {
    forall i, j :: 0 <= i < j < |s| ==> s[i].score >= s[j].score
  }

  ghost predicate OneEach(s: seq<Entry>) {
    forall i, j :: 0 <= i < j < |s| ==> s[i].player != s[j].player
  }

  ghost predicate Lists(s: seq<Entry>, p: Address) {
    exists i :: 0 <= i < |s| && s[i].player == p
  }

  ghost predicate FromTable(s: seq<Entry>, t: Table) {
    forall i :: 0 <= i < |s| ==> s[i].player in t && s[i].score == t[s[i].player]
  }

  /** Anyone left out faces a full list on which nobody has less. */
  ghost predicate Fair(s: seq<Entry>, t: Table, cap: nat, p: Address)
    requires p in t
  {
    Lists(s, p) || (|s| == cap && forall i :: 0 <= i < |s| ==> s[i].score >= t[p])
  }

  /** `s` is the best `cap` of the whole table. */
  ghost predicate IsTopN(s: seq<Entry>, t: Table, cap: nat) {
    && Descending(s) && OneEach(s) && |s| <= cap && FromTable(s, t)
    && forall p :: p in t ==> Fair(s, t, cap, p)
  }

  lemma {:induction false} WithoutMembers(s: seq<Entry>, p: Address)
    ensures forall x :: x in Without(s, p) <==> x in s && x.player != p
    decreases |s|
  {
    if s != [] {
      WithoutMembers(s[..|s| - 1], p);
      assert s == s[..|s| - 1] + [s[|s| - 1]];
    }
  }

  lemma {:induction false} WithoutKeepsOrder(s: seq<Entry>, p: Address)
    requires Descending(s) && OneEach(s)
    ensures Descending(Without(s, p)) && OneEach(Without(s, p))
    decreases |s|
  {
    if s != [] {
      var rest := s[..|s| - 1];
      WithoutKeepsOrder(rest, p);
      WithoutMembers(rest, p);
      forall i | 0 <= i < |Without(rest, p)|
        ensures Without(rest, p)[i].score >= s[|s| - 1].score && Without(rest, p)[i].player != s[|s| - 1].player
      {
        assert Without(rest, p)[i] in rest;
      }
    }
  }

  lemma {:induction false} WithoutLength(s: seq<Entry>, p: Address)
    requires OneEach(s)
    ensures |Without(s, p)| == if Lists(s, p) then |s| - 1 else |s|
    decreases |s|
  {
    if s != [] {
      var rest := s[..|s| - 1];
      WithoutLength(rest, p);
      if Lists(rest, p) {
        var i :| 0 <= i < |rest| && rest[i].player == p;
        assert s[i].player == p;
      } else if s[|s| - 1].player == p {
        assert Lists(s, p);
      }
    }
  }

  lemma WithoutFacts(s: seq<Entry>, p: Address)
    requires Descending(s) && OneEach(s)
    ensures Descending(Without(s, p)) && OneEach(Without(s, p))
    ensures forall x :: x in Without(s, p) <==> x in s && x.player != p
    ensures |Without(s, p)| == if Lists(s, p) then |s| - 1 else |s|
  {
    WithoutMembers(s, p);
    WithoutKeepsOrder(s, p);
    WithoutLength(s, p);
  }

  ghost function Merged(s: seq<Entry>, e: Entry): seq<Entry> {
    var k := Slot(s, e.score);
    s[..k] + [e] + s[k..]
  }

  /** As long as the list respects the cap, placing is merging and cutting. */
  lemma PlacedIsCut(s: seq<Entry>, e: Entry, cap: nat)
    requires |s| <= cap && cap >= 1
    ensures Placed(s, e, cap) == Take(Merged(s, e), cap)
  {
    var k := Slot(s, e.score);
    assert Take(s[..k], cap) == s[..k];
  }

  lemma MergedAt(s: seq<Entry>, e: Entry, i: nat)
    requires i <= |s|
    ensures |Merged(s, e)| == |s| + 1
    ensures var k := Slot(s, e.score); Merged(s, e)[i] == if i < k then s[i] else if i == k then e else s[i - 1]
  {
  }

  lemma MergedMembers(s: seq<Entry>, e: Entry)
    ensures forall x :: x in Merged(s, e) <==> x == e || x in s
  {
    var k := Slot(s, e.score);
    assert s == s[..k] + s[k..];
  }

  lemma MergedFacts(s: seq<Entry>, e: Entry)
    requires Descending(s) && OneEach(s) && !Lists(s, e.player)
    ensures Descending(Merged(s, e)) && OneEach(Merged(s, e)) && |Merged(s, e)| == |s| + 1
    ensures forall x :: x in Merged(s, e) <==> x == e || x in s
  {
    var m := Merged(s, e);
    MergedMembers(s, e);
    forall i, j | 0 <= i < j < |m| ensures m[i].score >= m[j].score && m[i].player != m[j].player {
      MergedAt(s, e, i);
      MergedAt(s, e, j);
    }
  }

  lemma ListsByMembership(s: seq<Entry>, p: Address)
    ensures Lists(s, p) <==> exists x :: x in s && x.player == p
  {
    if x :| x in s && x.player == p {
      var i :| 0 <= i < |s| && s[i] == x;
    }
  }

  lemma MergedFromTable(s: seq<Entry>, t: Table, e: Entry, f: seq<Entry>)
    requires FromTable(s, t) && !Lists(f, e.player)
    requires forall x :: x in Merged(f, e) ==> x == e || x in s
    requires OneEach(Merged(f, e)) && e in Merged(f, e)
    ensures FromTable(Merged(f, e), t[e.player := e.score])
  {
    var m := Merged(f, e);
    var k :| 0 <= k < |m| && m[k] == e;
    forall i | 0 <= i < |m| && i != k ensures m[i].player in t && m[i].score == t[m[i].player] {
      assert m[i] in m;
    }
  }

  /** The new list is sorted, without duplicates, capped and true to the new
      table, whatever the new score is. */
  lemma RefreshedIsRanked(s: seq<Entry>, t: Table, e: Entry, cap: nat)
    requires IsTopN(s, t, cap) && cap >= 1
    ensures var out := Refreshed(s, e, cap);
      Descending(out) && OneEach(out) && |out| <= cap && FromTable(out, t[e.player := e.score])
  {
    var f := Without(s, e.player);
    WithoutFacts(s, e.player);
    PlacedIsCut(f, e, cap);
    ListsByMembership(f, e.player);
    MergedFacts(f, e);
    MergedFromTable(s, t, e, f);
  }

  /** If the player was listed, the list keeps its players and its length. */
  lemma RefreshListed(s: seq<Entry>, e: Entry, cap: nat)
    requires Descending(s) && OneEach(s) && |s| <= cap && Lists(s, e.player)
    ensures var out := Refreshed(s, e, cap);
      && |out| == |s|
      && (forall x :: x in out <==> x == e || (x in s && x.player != e.player))
      && (forall p :: Lists(out, p) <==> Lists(s, p))
  {
    var f := Without(s, e.player);
    WithoutFacts(s, e.player);
    PlacedIsCut(f, e, cap);
    ListsByMembership(f, e.player);
    MergedFacts(f, e);
    var out := Refreshed(s, e, cap);
    assert out == Merged(f, e);
    forall p ensures Lists(out, p) <==> Lists(s, p) {
      ListsByMembership(out, p);
      ListsByMembership(s, p);
    }
  }

  lemma CutLists(m: seq<Entry>, cap: nat, j: nat)
    requires j < |m| && (j < cap || |m| <= cap)
    ensures Lists(Take(m, cap), m[j].player)
  {
    assert Take(m, cap)[j] == m[j];
  }

  /** Whoever is cut off the merged list has at most the scores that stay. */
  lemma CutIsFair(m: seq<Entry>, t: Table, cap: nat, j: nat)
    requires Descending(m) && |m| == cap + 1 && j < |m| && m[j].player in t && m[j].score == t[m[j].player]
    ensures Fair(Take(m, cap), t, cap, m[j].player)
  {
    if j < cap {
      CutLists(m, cap, j);
    }
  }

  lemma MergedIndex(s: seq<Entry>, e: Entry, i: nat)
    requires i < |s|
    ensures var k := Slot(s, e.score);
      && Merged(s, e)[k] == e
      && Merged(s, e)[if i < k then i else i + 1] == s[i]
  {
  }

  /** Everybody on the merged list is on the cut one or rightly left out. */
  lemma MergedIsFair(s: seq<Entry>, t: Table, e: Entry, cap: nat, p: Address)
    requires IsTopN(s, t, cap) && cap >= 1 && !Lists(s, e.player) && (p == e.player || Lists(s, p))
    ensures p in t[e.player := e.score] && Fair(Take(Merged(s, e), cap), t[e.player := e.score], cap, p)
  {
    MergedFacts(s, e);
    var m, t', k := Merged(s, e), t[e.player := e.score], Slot(s, e.score);
    var j := k;
    assert m[k] == e;
    if p != e.player {
      var i: nat :| i < |s| && s[i].player == p;
      MergedIndex(s, e, i);
      j := if i < k then i else i + 1;
    }
    if |m| <= cap { CutLists(m, cap, j); } else { CutIsFair(m, t', cap, j); }
  }

  /** Whoever was rightly left out still is. */
  lemma OutsiderIsFair(s: seq<Entry>, t: Table, e: Entry, cap: nat, p: Address)
    requires IsTopN(s, t, cap) && cap >= 1 && !Lists(s, e.player) && p != e.player && !Lists(s, p) && p in t
    ensures Fair(Take(Merged(s, e), cap), t[e.player := e.score], cap, p)
  {
    MergedFacts(s, e);
    var m, k := Merged(s, e), Slot(s, e.score);
    assert Fair(s, t, cap, p);
    forall i | 0 <= i < cap ensures m[i].score >= t[p] {
      assert m[i] in m;
      assert m[k] == e;
      if m[i].player == e.player { assert i == k; }
    }
  }

  /** A player that was not listed enters if there is room or if it beats the
      last entry, which then leaves. */
  lemma RefreshUnlisted(s: seq<Entry>, t: Table, e: Entry, cap: nat, p: Address)
    requires IsTopN(s, t, cap) && cap >= 1 && !Lists(s, e.player)
    requires p in t[e.player := e.score]
    ensures Fair(Refreshed(s, e, cap), t[e.player := e.score], cap, p)
  {
    WithoutIsAll(s, e.player);
    PlacedIsCut(s, e, cap);
    if p == e.player || Lists(s, p) {
      MergedIsFair(s, t, e, cap, p);
    } else {
      OutsiderIsFair(s, t, e, cap, p);
    }
  }

  lemma {:induction false} WithoutIsAll(s: seq<Entry>, p: Address)
    requires !Lists(s, p)
    ensures Without(s, p) == s
    decreases |s|
  {
    if s != [] {
      WithoutIsAll(s[..|s| - 1], p);
    }
  }

  /** Updating one player's score keeps the list the top N of the table exactly
      when the player was not listed, or still has at least the score of every
      player that is not listed. */
  lemma RefreshKeepsTopN(s: seq<Entry>, t: Table, e: Entry, cap: nat)
    requires IsTopN(s, t, cap) && cap >= 1
    ensures IsTopN(Refreshed(s, e, cap), t[e.player := e.score], cap)
      <==> (!Lists(s, e.player) || forall p :: p in t && !Lists(s, p) ==> t[p] <= e.score)
  {
    var out, t' := Refreshed(s, e, cap), t[e.player := e.score];
    RefreshedIsRanked(s, t, e, cap);
    if !Lists(s, e.player) {
      forall p | p in t' ensures Fair(out, t', cap, p) {
        RefreshUnlisted(s, t, e, cap, p);
      }
    } else {
      RefreshListed(s, e, cap);
      if p :| p in t && !Lists(s, p) && t[p] > e.score {
        assert e in out;
        var i :| 0 <= i < |out| && out[i] == e;
        assert out[i].score < t'[p] && !Fair(out, t', cap, p);
      } else {
        forall p | p in t' && !Lists(out, p) ensures Fair(out, t', cap, p) {
          assert Fair(s, t, cap, p);
          forall i | 0 <= i < |out| ensures out[i].score >= t'[p] {
            assert out[i] in out;
          }
        }
      }
    }
  }

  /** In particular a score that does not go down keeps it. */
  lemma RisingScoreKeepsTopN(s: seq<Entry>, t: Table, e: Entry, cap: nat)
    requires IsTopN(s, t, cap) && cap >= 1
    requires e.player in t ==> e.score >= t[e.player]
    ensures IsTopN(Refreshed(s, e, cap), t[e.player := e.score], cap)
  {
    if Lists(s, e.player) {
      var i :| 0 <= i < |s| && s[i].player == e.player;
      forall p | p in t && !Lists(s, p) ensures t[p] <= e.score {
        assert Fair(s, t, cap, p);
      }
    }
    RefreshKeepsTopN(s, t, e, cap);
  }

  // ---- Lists that outgrew their cap ----

  /** Part of a ranked list before and behind the place of `e`, with `e` in between. */
  lemma AroundSlot(f: seq<Entry>, e: Entry, a: nat, k: nat, b: nat)
    requires Descending(f) && OneEach(f) && forall x :: x in f ==> x.player != e.player
    requires a <= k <= b <= |f|
    requires forall i :: 0 <= i < k ==> f[i].score >= e.score
    requires forall i :: k <= i < |f| ==> f[i].score <= e.score
    ensures var out := f[..a] + [e] + f[k..b];
      Descending(out) && OneEach(out) && forall x :: x in out ==> x == e || x in f
  {
    var out := f[..a] + [e] + f[k..b];
    forall i, j | 0 <= i < j < |out| ensures out[i].score >= out[j].score && out[i].player != out[j].player {
      var x := if i < a then i else if i == a then k else k + (i - a - 1);
      var y := if j < a then j else if j == a then k else k + (j - a - 1);
      assert i != a ==> out[i] == f[x] && f[x] in f;
      assert j != a ==> out[j] == f[y] && f[y] in f;
    }
  }

  /** How many entries before the slot stay. */
  function Before(k: nat, cap: nat): nat {
    if k <= cap then k else cap
  }

  /** Up to where the entries behind the slot stay. */
  function Until(n: nat, k: nat, cap: nat): nat
    requires k <= n
  {
    if n - k <= Room(Before(k, cap), cap) then n else k + Room(Before(k, cap), cap)
  }

  lemma PlacedShape(f: seq<Entry>, e: Entry, k: nat, cap: nat)
    requires k <= |f|
    ensures PlacedAt(f, e, k, cap)
         == if k < |f| || k < cap then f[..Before(k, cap)] + [e] + f[k..Until(|f|, k, cap)] else f[..Before(k, cap)]
  {
    assert Take(f[..k], cap) == f[..Before(k, cap)];
    if k < |f| {
      assert Take(f[k..], Room(Before(k, cap), cap)) == f[k..Until(|f|, k, cap)];
    } else {
      assert f[..Before(k, cap)] + [e] + f[k..k] == f[..Before(k, cap)] + [e];
    }
  }

  /** Everything in the placed list keeps its order. */
  lemma PlacedKeepsRanks(f: seq<Entry>, e: Entry, cap: nat)
    requires Descending(f) && OneEach(f) && forall x :: x in f ==> x.player != e.player
    ensures var out := Placed(f, e, cap);
      && Descending(out) && OneEach(out) && (forall x :: x in out ==> x == e || x in f)
      && |out| <= if |f| <= cap then cap else cap + 1
  {
    var k := Slot(f, e.score);
    PlacedShape(f, e, k, cap);
    AroundSlot(f, e, Before(k, cap), k, Until(|f|, k, cap));
  }

  /** Whatever the cap is now and was before, one update keeps the list sorted,
      without duplicates and true to the table. It leaves at most one entry more
      than the cap, and none more if the list respected the cap. */
  lemma RefreshKeepsRanks(s: seq<Entry>, t: Table, e: Entry, cap: nat)
    requires Descending(s) && OneEach(s) && FromTable(s, t)
    ensures var out := Refreshed(s, e, cap);
      && Descending(out) && OneEach(out) && FromTable(out, t[e.player := e.score])
      && |out| <= if |s| <= cap then cap else cap + 1
  {
    var f, out := Without(s, e.player), Refreshed(s, e, cap);
    WithoutFacts(s, e.player);
    PlacedKeepsRanks(f, e, cap);
    forall i | 0 <= i < |out| ensures out[i].player in t[e.player := e.score]
      && out[i].score == t[e.player := e.score][out[i].player]
    {
      assert out[i] == e || out[i] in f;
    }
  }

  /** Under another cap the same list is the top of the same table exactly when it
      fits the new cap and either fills it or leaves nobody out. */
  lemma ResizeKeepsTopN(s: seq<Entry>, t: Table, cap: nat, cap': nat)
    requires IsTopN(s, t, cap)
    ensures IsTopN(s, t, cap') <==> |s| <= cap' && (|s| == cap' || forall p :: p in t ==> Lists(s, p))
  {
    forall p | p in t && !Lists(s, p) ensures Fair(s, t, cap, p) && (Fair(s, t, cap', p) <==> |s| == cap') {
    }
  }

  /** The first entries of a top list are a shorter top list. */
  lemma PrefixIsTopN(s: seq<Entry>, t: Table, cap: nat, n: nat)
    requires IsTopN(s, t, cap) && n <= cap
    ensures IsTopN(Take(s, n), t, n)
  {
    forall p | p in t ensures Fair(Take(s, n), t, n, p) {
      assert Fair(s, t, cap, p);
      if i :| 0 <= i < |s| && s[i].player == p {
        if i < n {
          assert Take(s, n)[i] == s[i];
        }
      }
    }
  }
}
