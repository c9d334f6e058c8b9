/** What a donation does to the books and to the donor leaderboard, and what a
    distribution pays. */
module CharityBooks {
  import opened Host
  import opened Sequences
  import opened Sums
  import opened QuadraticFunding

  datatype Charity = Charity(wallet: Address, verified: bool, totalRaised: int, contributorCount: int)

  datatype Entry = Entry(donor: Address, score: int)

  type Totals = map<(Address, nat), int>

  const BOARD_SIZE := 10

  // ---- The books ----

  function Amounts(totals: Totals, list: seq<Address>, id: nat): seq<int> {
    seq(|list|, i requires 0 <= i < |list| => Get(totals, (list[i], id)))
  }

  ghost function GiftsOf(totals: Totals, donor: Address): Totals {
    map k | k in totals && k.0 == donor :: totals[k]
  }

  /** Everything a donor ever gave, to any charity. */
  ghost function Lifetime(totals: Totals, donor: Address): int {
    Total(GiftsOf(totals, donor))
  }

  /** The donor list names every donor of the charity once, and the amounts on
      record add up to what the charity raised. */
  ghost predicate CharitySound(c: Charity, list: seq<Address>, totals: Totals, id: nat) {
    && Distinct(list)
    && (forall a :: a in list <==> Get(totals, (a, id)) > 0)
    && c.totalRaised == Sum(Amounts(totals, list, id))
    && c.contributorCount == |list|
  }

  lemma {:induction false} SumUpdate(s: seq<int>, i: nat, v: int)
    requires i < |s|
    ensures Sum(s[i := v]) == Sum(s) - s[i] + v
    decreases |s|
  {
    var t := s[i := v];
    if i == |s| - 1 {
      assert t[..|t| - 1] == s[..|s| - 1];
    } else {
      assert t[..|t| - 1] == s[..|s| - 1][i := v];
      SumUpdate(s[..|s| - 1], i, v);
    }
  }

  lemma FirstDonation(c: Charity, list: seq<Address>, totals: Totals, id: nat, donor: Address, amount: int)
    requires CharitySound(c, list, totals, id) && amount > 0 && Get(totals, (donor, id)) == 0
    ensures CharitySound(Raised(c, amount, true), list + [donor], Given(totals, (donor, id), amount), id)
  {
    var after := Amounts(Given(totals, (donor, id), amount), list + [donor], id);
    assert after[..|after| - 1] == Amounts(totals, list, id);
  }

  lemma RepeatedDonation(c: Charity, list: seq<Address>, totals: Totals, id: nat, donor: Address, amount: int)
    requires CharitySound(c, list, totals, id) && amount > 0 && Get(totals, (donor, id)) > 0
    ensures CharitySound(Raised(c, amount, false), list, Given(totals, (donor, id), amount), id)
  {
    var totals' := Given(totals, (donor, id), amount);
    var before := Amounts(totals, list, id);
    var i :| 0 <= i < |list| && list[i] == donor;
    assert Amounts(totals', list, id) == before[i := totals'[(donor, id)]];
    SumUpdate(before, i, totals'[(donor, id)]);
  }

  lemma DonationLeavesOthers(c: Charity, list: seq<Address>, totals: Totals, id: nat, k: (Address, nat), v: int)
    requires CharitySound(c, list, totals, id) && k.1 != id
    ensures CharitySound(c, list, totals[k := v], id)
  {
    assert Amounts(totals[k := v], list, id) == Amounts(totals, list, id);
  }

  lemma LifetimeAfter(totals: Totals, k: (Address, nat), amount: int, a: Address)
    ensures Lifetime(Given(totals, k, amount), a) == Lifetime(totals, a) + if a == k.0 then amount else 0
  {
    var v := Get(totals, k) + amount;
    var before, after := GiftsOf(totals, a), GiftsOf(totals[k := v], a);
    if a == k.0 {
      assert after == before[k := v];
      TotalUpdate(before, k, v);
    } else {
      assert after == before;
    }
  }

  lemma LifetimesAfter(totals: Totals, k: (Address, nat), amount: int)
    ensures forall a :: Lifetime(Given(totals, k, amount), a)
                     == Lifetime(totals, a) + if a == k.0 then amount else 0
    ensures NonNegative(totals) ==> Lifetime(totals, k.0) >= 0
  {
    forall a ensures Lifetime(Given(totals, k, amount), a)
                  == Lifetime(totals, a) + if a == k.0 then amount else 0 {
      LifetimeAfter(totals, k, amount, a);
    }
    if NonNegative(totals) {
      TotalNonNegative(GiftsOf(totals, k.0));
    }
  }

  /** All charities, their donor lists and the amounts on record agree. */
  ghost predicate BooksSound(charities: map<nat, Charity>, lists: map<nat, seq<Address>>, totals: Totals, next: nat) {
    && (forall id :: id in charities ==>
          id < next && id in lists && CharitySound(charities[id], lists[id], totals, id))
    && (forall k :: k in totals ==> k.1 < next && 0 <= totals[k] <= I128_MAX)
  }

  /** The charity record after a donation that is `first` for its donor. */
  function Raised(c: Charity, amount: int, first: bool): Charity {
    c.(totalRaised := c.totalRaised + amount, contributorCount := c.contributorCount + if first then 1 else 0)
  }

  function Listed(list: seq<Address>, donor: Address, first: bool): seq<Address> {
    if first then list + [donor] else list
  }

  function Given(totals: Totals, k: (Address, nat), amount: int): Totals {
    totals[k := Get(totals, k) + amount]
  }

  lemma DonationKeepsBooks(charities: map<nat, Charity>, lists: map<nat, seq<Address>>, totals: Totals, next: nat,
                           id: nat, donor: Address, amount: int)
    requires BooksSound(charities, lists, totals, next) && id in charities
    requires amount > 0 && Get(totals, (donor, id)) + amount <= I128_MAX
    ensures var first := Get(totals, (donor, id)) == 0;
      BooksSound(charities[id := Raised(charities[id], amount, first)],
                 lists[id := Listed(lists[id], donor, first)],
                 Given(totals, (donor, id), amount), next)
  {
    if Get(totals, (donor, id)) == 0 {
      FirstDonation(charities[id], lists[id], totals, id, donor, amount);
    } else {
      RepeatedDonation(charities[id], lists[id], totals, id, donor, amount);
    }
    forall i | i in charities && i != id
      ensures CharitySound(charities[i], lists[i], Given(totals, (donor, id), amount), i)
    {
      DonationLeavesOthers(charities[i], lists[i], totals, i, (donor, id), Get(totals, (donor, id)) + amount);
    }
  }

  // ---- The leaderboard ----

  ghost predicate Descending(b: seq<Entry>) {
    forall i, j :: 0 <= i < j < |b| ==> b[i].score >= b[j].score
  }

  ghost predicate OneEach(b: seq<Entry>) {
    forall i, j :: 0 <= i < j < |b| ==> b[i].donor != b[j].donor
  }

  ghost predicate Credited(b: seq<Entry>, totals: Totals) {
    forall i :: 0 <= i < |b| ==> 0 < b[i].score <= Lifetime(totals, b[i].donor)
  }

  ghost predicate BoardSound(b: seq<Entry>, totals: Totals) {
    Descending(b) && OneEach(b) && |b| <= 10 && Credited(b, totals)
  }

  function ScoreOf(b: seq<Entry>, donor: Address): int {
    if b == [] then 0 else if b[0].donor == donor then b[0].score else ScoreOf(b[1..], donor)
  }

  /** The board with the donation added to the donor's entry, or a new entry. */
  function AddScore(b: seq<Entry>, donor: Address, amount: int): seq<Entry> {
    if b == [] then [Entry(donor, amount)]
    else if b[0].donor == donor then [Entry(donor, b[0].score + amount)] + b[1..]
    else [b[0]] + AddScore(b[1..], donor, amount)
  }

  lemma {:induction false} AddScoreAt(b: seq<Entry>, donor: Address, amount: int, i: nat)
    requires i <= |b|
    requires forall j :: 0 <= j < i ==> b[j].donor != donor
    requires i < |b| ==> b[i].donor == donor
    ensures AddScore(b, donor, amount)
         == if i < |b| then b[i := Entry(donor, b[i].score + amount)] else b + [Entry(donor, amount)]
    ensures ScoreOf(b, donor) == if i < |b| then b[i].score else 0
    decreases |b|
  {
    if b != [] && i != 0 {
      AddScoreAt(b[1..], donor, amount, i - 1);
    }
  }

  /** `b'` is the updated board, ranked and cut to ten entries. */
  ghost predicate Ranked(b: seq<Entry>, donor: Address, amount: int, b': seq<Entry>) {
    exists full ::
      && multiset(full) == multiset(AddScore(b, donor, amount))
      && Descending(full)
      && b' == if |full| > BOARD_SIZE then full[..|full| - 1] else full
  }

  /** Nothing is lost from a board that is not full, and from a full one only an
      entry that no listed entry is below. */
  lemma OnlyAMinimumIsDropped(b: seq<Entry>, donor: Address, amount: int, b': seq<Entry>, e: Entry)
    requires |b| <= BOARD_SIZE && Ranked(b, donor, amount, b')
    requires e in AddScore(b, donor, amount) && e !in b'
    ensures |b'| == 10 && forall x :: x in b' ==> x.score >= e.score
  {
    AddScoreLength(b, donor, amount);
    var full :| multiset(full) == multiset(AddScore(b, donor, amount)) && Descending(full)
             && b' == if |full| > BOARD_SIZE then full[..|full| - 1] else full;
    assert e in multiset(full);
    assert |full| == |multiset(full)| == |AddScore(b, donor, amount)|;
    var i :| 0 <= i < |full| && full[i] == e;
    assert |full| > BOARD_SIZE && i >= |b'| by {
      assert forall j :: 0 <= j < |b'| ==> b'[j] == full[j] && b'[j] in b';
    }
  }

  lemma {:induction false} AddScoreLength(b: seq<Entry>, donor: Address, amount: int)
    ensures |b| <= |AddScore(b, donor, amount)| <= |b| + 1
    decreases |b|
  {
    if b != [] && b[0].donor != donor {
      AddScoreLength(b[1..], donor, amount);
    }
  }

  /** No later entry of `b` beats entry `p`. */
  ghost predicate Leads(b: seq<Entry>, p: nat)
    requires p < |b|
  {
    forall q :: p < q < |b| ==> b[p].score >= b[q].score
  }

  lemma SwapPermutes(b: seq<Entry>, i: nat, j: nat)
    requires i < j < |b|
    ensures multiset(b[i := b[j]][j := b[i]]) == multiset(b)
  {
  }

  lemma SwapKeepsLead(b: seq<Entry>, i: nat, j: nat, p: nat)
    requires p < i < j < |b| && Leads(b, p)
    ensures Leads(b[i := b[j]][j := b[i]], p)
  {
  }

  lemma {:induction false} CountTwo(b: seq<Entry>, i: nat, j: nat)
    requires i < j < |b| && b[i] == b[j]
    ensures multiset(b)[b[i]] >= 2
  {
    assert b == b[..j] + [b[j]] + b[j + 1..];
    assert b[..j][i] == b[i];
  }

  lemma {:induction false} CountOne(b: seq<Entry>, e: Entry)
    requires OneEach(b)
    ensures multiset(b)[e] <= 1
    decreases |b|
  {
    if b != [] {
      assert b == [b[0]] + b[1..];
      CountOne(b[1..], e);
      if e in b[1..] {
        var k :| 0 <= k < |b[1..]| && b[1..][k] == e;
        assert b[k + 1] == e && b[0].donor != b[k + 1].donor;
      }
    }
  }

  /** Reordering keeps the board free of repeated donors and of excess scores. */
  lemma PermutationKeeps(b: seq<Entry>, p: seq<Entry>, totals: Totals)
    requires multiset(p) == multiset(b) && OneEach(b) && Credited(b, totals)
    ensures OneEach(p) && Credited(p, totals)
  {
    forall i | 0 <= i < |p| ensures p[i] in b {
      assert p[i] in multiset(p);
    }
    forall i, j | 0 <= i < j < |p| ensures p[i].donor != p[j].donor {
      if p[i] == p[j] {
        CountTwo(p, i, j);
        CountOne(b, p[i]);
        assert false;
      }
      assert p[i] in b && p[j] in b;
    }
  }

  lemma AddScoreKeeps(b: seq<Entry>, donor: Address, amount: int, i: nat, before: Totals, totals: Totals)
    requires OneEach(b) && Credited(b, before) && amount > 0
    requires i <= |b| && (forall j :: 0 <= j < i ==> b[j].donor != donor) && (i < |b| ==> b[i].donor == donor)
    requires Lifetime(before, donor) >= 0
    requires forall a :: Lifetime(totals, a) == Lifetime(before, a) + if a == donor then amount else 0
    ensures OneEach(AddScore(b, donor, amount)) && Credited(AddScore(b, donor, amount), totals)
  {
    AddScoreAt(b, donor, amount, i);
  }

  lemma CutIsSound(full: seq<Entry>, totals: Totals)
    requires Descending(full) && OneEach(full) && Credited(full, totals) && |full| <= BOARD_SIZE + 1
    ensures BoardSound(if |full| > BOARD_SIZE then full[..|full| - 1] else full, totals)
  {
  }

  /** The square of the sum of the donors' roots, less what they gave. */
  ghost function Match(amounts: seq<int>): int
    requires forall i :: 0 <= i < |amounts| ==> amounts[i] >= 0
  {
    SumOfRoots(amounts) * SumOfRoots(amounts) - Sum(amounts)
  }

  lemma MatchIsBounded(amounts: seq<int>)
    requires forall i :: 0 <= i < |amounts| ==> amounts[i] >= 0
    ensures Match(amounts) <= (|amounts| - 1) * Sum(amounts)
    ensures |amounts| <= 1 ==> Match(amounts) <= 0
  {
    RootsSquared(amounts);
    assert (|amounts| - 1) * Sum(amounts) == |amounts| * Sum(amounts) - Sum(amounts);
  }

  /** What a distribution returns; None when the arithmetic overflows or the
      token refuses the payment. */
  ghost function Payout(amounts: seq<int>, pool: int, accepted: bool): Option<int>
    requires forall i :: 0 <= i < |amounts| ==> amounts[i] >= 0
  {
    var pay := if Match(amounts) > pool then pool else Match(amounts);
    if I128_MAX in amounts || SumOfRoots(amounts) * SumOfRoots(amounts) > I128_MAX || (pay > 0 && !accepted) then None
    else Some(pay)
  }

  /** Any ranking of the updated board is sound for the updated totals. */
  lemma RankedIsSound(b: seq<Entry>, donor: Address, amount: int, id: nat, before: Totals, b': seq<Entry>)
    requires BoardSound(b, before) && NonNegative(before) && amount > 0 && Ranked(b, donor, amount, b')
    ensures BoardSound(b', Given(before, (donor, id), amount))
  {
    var totals := Given(before, (donor, id), amount);
    var full :| multiset(full) == multiset(AddScore(b, donor, amount)) && Descending(full)
             && b' == if |full| > BOARD_SIZE then full[..|full| - 1] else full;
    var i := EntryOf(b, donor);
    LifetimesAfter(before, (donor, id), amount);
    AddScoreKeeps(b, donor, amount, i, before, totals);
    PermutationKeeps(AddScore(b, donor, amount), full, totals);
    AddScoreLength(b, donor, amount);
    assert |full| == |multiset(full)| == |AddScore(b, donor, amount)|;
    CutIsSound(full, totals);
  }

  lemma {:induction false} EntryOf(b: seq<Entry>, donor: Address) returns (i: nat)
    ensures i <= |b| && (forall j :: 0 <= j < i ==> b[j].donor != donor) && (i < |b| ==> b[i].donor == donor)
    decreases |b|
  {
    if b == [] || b[0].donor == donor {
      i := 0;
    } else {
      var k := EntryOf(b[1..], donor);
      i := k + 1;
    }
  }
}
