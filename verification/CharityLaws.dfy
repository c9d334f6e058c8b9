/** What each accepted call of the charity contract does, donor by donor and charity
    by charity, and what a distribution pays in terms of the donations alone. */
module CharityLaws {
  import opened Host
  import opened Sums
  import opened QuadraticFunding
  import opened CharityBooks
  import opened CharityRuns

  /** What the donors of a list gave to charity `id`, in the order of the list. */
  ghost predicate Gifts(gifts: seq<int>, totals: Totals, list: seq<Address>, id: nat) {
    |gifts| == |list| && forall i :: 0 <= i < |list| ==> gifts[i] == Get(totals, (list[i], id))
  }

  /** Their square roots, each rounded down. */
  ghost predicate Roots(roots: seq<int>, gifts: seq<int>) {
    && |roots| == |gifts|
    && forall i :: 0 <= i < |gifts| ==>
         roots[i] >= 0 && roots[i] * roots[i] <= gifts[i] < (roots[i] + 1) * (roots[i] + 1)
  }

  lemma {:induction false} RootsAddUp(roots: seq<int>, gifts: seq<int>)
    requires Roots(roots, gifts) && forall i :: 0 <= i < |gifts| ==> gifts[i] >= 0
    ensures Sum(roots) == SumOfRoots(gifts)
    decreases |gifts|
  {
    if gifts != [] {
      var n := |gifts| - 1;
      RootsAddUp(roots[..n], gifts[..n]);
      FloorSqrtIsUnique(gifts[n], roots[n], FloorSqrt(gifts[n]));
    }
  }

  lemma GiftsAreAmounts(gifts: seq<int>, totals: Totals, list: seq<Address>, id: nat)
    requires Gifts(gifts, totals, list, id)
    ensures gifts == Amounts(totals, list, id)
  {
  }

  /** Every donor on the list gave something, and together what the charity raised. */
  lemma GiftsAddUp(w: World, id: nat, gifts: seq<int>)
    requires Reachable(w) && id in w.charities
    ensures id in w.lists
    ensures Gifts(gifts, w.totals, w.lists[id], id) ==>
      Sum(gifts) == w.charities[id].totalRaised && forall i :: 0 <= i < |gifts| ==> gifts[i] > 0
  {
    BooksAreSound(w);
    assert CharitySound(w.charities[id], w.lists[id], w.totals, id);
    if Gifts(gifts, w.totals, w.lists[id], id) {
      GiftsAreAmounts(gifts, w.totals, w.lists[id], id);
      forall i | 0 <= i < |gifts| ensures gifts[i] > 0 {
        assert w.lists[id][i] in w.lists[id];
      }
    }
  }

  function Least(a: int, b: int): int {
    if a < b then a else b
  }

  /** A distribution pays the square of the sum of the donors' roots less the sum of
      their gifts, or the pool if that is smaller; the pool falls by that if it is
      positive and stays otherwise. It is refused to anybody but the administrator,
      when the arithmetic overflows, and when the token does not take the payment. */
  lemma MatchIsQuadratic(w: World, caller: Address, id: nat, accepted: bool, gifts: seq<int>, roots: seq<int>)
    requires Reachable(w) && id in w.charities && id in w.lists
    requires Gifts(gifts, w.totals, w.lists[id], id) && Roots(roots, gifts)
    ensures var next, pay := Next(w, Distribute(caller, id, accepted)),
                             Least(w.pool, Sum(roots) * Sum(roots) - Sum(gifts));
      && (next.Some? <==> caller == w.admin && I128_MAX !in gifts && Sum(roots) * Sum(roots) <= I128_MAX
                          && (pay > 0 ==> accepted))
      && (next.Some? ==>
            && next.value.pool == w.pool - (if pay > 0 then pay else 0)
            && (forall k :: Get(next.value.paid, k) == Get(w.paid, k) + if k == id && pay > 0 then pay else 0)
            && next.value == w.(pool := next.value.pool, paid := next.value.paid, rounds := next.value.rounds))
  {
    GiftsAddUp(w, id, gifts);
    GiftsAreAmounts(gifts, w.totals, w.lists[id], id);
    RootsAddUp(roots, gifts);
  }

  /** The same for a payment worked out from the amounts on record. */
  lemma PaymentIsQuadratic(w: World, id: nat, pay: int)
    requires Reachable(w) && id in w.charities && Payable(w, id)
    requires var sum := SumOfRoots(AmountsOf(w, id)); pay == Least(w.pool, sum * sum - w.charities[id].totalRaised)
    ensures forall gifts, roots :: Gifts(gifts, w.totals, w.lists[id], id) && Roots(roots, gifts) ==>
      pay == Least(w.pool, Sum(roots) * Sum(roots) - Sum(gifts))
  {
    forall gifts, roots | Gifts(gifts, w.totals, w.lists[id], id) && Roots(roots, gifts)
      ensures pay == Least(w.pool, Sum(roots) * Sum(roots) - Sum(gifts))
    {
      GiftsAddUp(w, id, gifts);
      GiftsAreAmounts(gifts, w.totals, w.lists[id], id);
      RootsAddUp(roots, gifts);
    }
  }

  // ---- The other calls ----

  /** Only charity `id` and its list change. */
  ghost predicate OnlyCharity(w: World, w': World, id: nat) {
    && id in w'.charities && w'.charities == w.charities[id := w'.charities[id]]
    && id in w'.lists && w'.lists == w.lists[id := w'.lists[id]]
    && w'.admin == w.admin && w'.pool == w.pool && w'.funded == w.funded && w'.paid == w.paid && w'.rounds == w.rounds
  }

  /** A positive donation to a verified charity that the token moves is taken, unless a
      number overflows, and no other. */
  lemma DonationIsTaken(w: World, donor: Address, id: nat, amount: int, accepted: bool)
    requires Reachable(w)
    ensures Accepts(w, donor, id, amount, accepted) <==>
      && amount > 0 && accepted && id in w.charities && w.charities[id].verified
      && (Get(w.totals, (donor, id)) == 0 ==> w.charities[id].contributorCount < 0xFFFF_FFFF)
      && Get(w.totals, (donor, id)) + amount <= I128_MAX && w.charities[id].totalRaised + amount <= I128_MAX
      && forall e :: e in w.board && e.donor == donor ==> e.score + amount <= I128_MAX
  {
    BooksAreSound(w);
    if i :| 0 <= i < |w.board| && w.board[i].donor == donor {
      AddScoreAt(w.board, donor, amount, i);
    } else {
      AddScoreAt(w.board, donor, amount, |w.board|);
    }
  }

  /** A donation is credited to the donor and the charity, and to nobody else; only
      the first one to a charity adds the donor to its list. */
  lemma DonationIsCredited(w: World, donor: Address, id: nat, amount: int, accepted: bool, board: seq<Entry>)
    requires id in w.charities && id in w.lists
    ensures var next, c := Next(w, Donate(donor, id, amount, accepted, board)), w.charities[id];
      && (next.Some? ==> c.verified && amount > 0 && accepted)
      && (next.Some? ==>
            var w', first := next.value, Get(w.totals, (donor, id)) == 0;
            && OnlyCharity(w, w', id) && w'.nextId == w.nextId && w'.board == board
            && (forall k :: Get(w'.totals, k) == Get(w.totals, k) + if k == (donor, id) then amount else 0)
            && w'.charities[id].totalRaised == c.totalRaised + amount
            && w'.charities[id].contributorCount == c.contributorCount + (if first then 1 else 0)
            && w'.charities[id].wallet == c.wallet && w'.charities[id].verified
            && w'.lists[id] == w.lists[id] + if first then [donor] else [])
  {
  }

  /** Charities are added unverified and empty under the next id, by the administrator. */
  lemma CharityIsAdded(w: World, caller: Address, wallet: Address)
    ensures var next := Next(w, Add(caller, wallet));
      && (next.Some? <==> caller == w.admin && w.nextId < U32_MAX)
      && (next.Some? ==>
            var w' := next.value;
            && OnlyCharity(w, w', w.nextId) && w'.nextId == w.nextId + 1
            && w'.totals == w.totals && w'.board == w.board
            && w'.charities[w.nextId] == Charity(wallet, false, 0, 0) && w'.lists[w.nextId] == [])
  {
  }

  lemma CharityIsVerified(w: World, caller: Address, id: nat)
    ensures var next := Next(w, Verify(caller, id));
      && (next.Some? <==> caller == w.admin && id in w.charities)
      && (next.Some? ==>
            && next.value == w.(charities := next.value.charities)
            && next.value.charities == w.charities[id := w.charities[id].(verified := true)])
  {
  }

  lemma PoolIsFunded(w: World, amount: int, accepted: bool)
    ensures var next := Next(w, Fund(amount, accepted));
      && (next.Some? <==> accepted && amount >= 0 && w.pool + amount <= I128_MAX)
      && (next.Some? ==> next.value == w.(pool := w.pool + amount, funded := w.funded + amount))
  {
  }

  // ---- The leaderboard ----

  /** The donor's score grows by the donation, or the donor enters with it; all other
      entries stay. The new board keeps the ten highest of them, in falling order. */
  lemma ScoreIsAdded(b: seq<Entry>, donor: Address, amount: int, i: nat)
    requires i <= |b| && (forall j :: 0 <= j < i ==> b[j].donor != donor) && (i < |b| ==> b[i].donor == donor)
    ensures var added := AddScore(b, donor, amount);
      && |added| == (if i < |b| then |b| else |b| + 1)
      && added[i] == Entry(donor, (if i < |b| then b[i].score else 0) + amount)
      && forall j :: 0 <= j < |b| && j != i ==> added[j] == b[j]
  {
    AddScoreAt(b, donor, amount, i);
  }
}
