/** The charity contract: storage updated in place, proved against the state
    machine of CharityRuns. */
module Charity {
  import opened Host
  import opened Sums
  import opened QuadraticFunding
  import opened CharityBooks
  import opened CharityRuns
  import opened CharityLaws

  /** The exchange sort of the contract. */
  method SortBoard(b: seq<Entry>) returns (board: seq<Entry>)
    ensures multiset(board) == multiset(b) && |board| == |b|
    ensures Descending(board)
  {
    board := b;
    for i := 0 to |board|
      invariant |board| == |b| && multiset(board) == multiset(b)
      invariant forall p :: 0 <= p < i ==> Leads(board, p)
    {
      for j := i + 1 to |board|
        invariant |board| == |b| && multiset(board) == multiset(b)
        invariant forall p :: 0 <= p < i ==> Leads(board, p)
        invariant forall q :: i < q < j ==> board[i].score >= board[q].score
      {
        if board[j].score > board[i].score {
          SwapPermutes(board, i, j);
          ghost var before := board;
          board := board[i := board[j]][j := board[i]];
          forall p | 0 <= p < i ensures Leads(board, p) {
            SwapKeepsLead(before, i, j, p);
          }
        }
      }
    }
    forall p, q | 0 <= p < q < |board| ensures board[p].score >= board[q].score {
      assert Leads(board, p);
    }
  }

  method FindEntry(b: seq<Entry>, donor: Address) returns (i: nat)
    ensures i <= |b| && (forall j :: 0 <= j < i ==> b[j].donor != donor) && (i < |b| ==> b[i].donor == donor)
  {
    i := 0;
    while i < |b|
      invariant 0 <= i <= |b| && forall j :: 0 <= j < i ==> b[j].donor != donor
    {
      if b[i].donor == donor {
        break;
      }
      i := i + 1;
    }
  }

  /** None is an overflow of the donor's score. */
  method UpdateLeaderboard(b: seq<Entry>, donor: Address, amount: int) returns (board: Option<seq<Entry>>)
    requires |b| <= BOARD_SIZE
    ensures board.Some? <==> ScoreOf(b, donor) + amount <= I128_MAX
    ensures board.Some? ==> Ranked(b, donor, amount, board.value)
  {
    var i := FindEntry(b, donor);
    var updated;
    if i < |b| {
      updated := b[i := Entry(donor, b[i].score + amount)];
    } else {
      updated := b + [Entry(donor, amount)];
    }
    AddScoreAt(b, donor, amount, i);
    assert updated == AddScore(b, donor, amount);
    if updated[i].score > I128_MAX {
      return None;
    }
    var full := SortBoard(updated);
    board := Some(if |full| > BOARD_SIZE then full[..|full| - 1] else full);
    assert Ranked(b, donor, amount, board.value);
  }

  method SumSqrt(totals: Totals, donors: seq<Address>, id: nat) returns (sum: Option<int>)
    requires forall k :: k in totals ==> 0 <= totals[k] <= I128_MAX
    ensures sum == if I128_MAX in Amounts(totals, donors, id) then None
                   else Some(SumOfRoots(Amounts(totals, donors, id)))
  {
    ghost var amounts := Amounts(totals, donors, id);
    var sumSqrt := 0;
    for i := 0 to |donors|
      invariant sumSqrt == SumOfRoots(amounts[..i])
      invariant I128_MAX !in amounts[..i]
    {
      var amount := Get(totals, (donors[i], id));
      assert amounts[..i + 1][..i] == amounts[..i];
      var root := Sqrt(amount);
      if root.None? {
        assert amounts[i] == I128_MAX;
        return None;
      }
      sumSqrt := sumSqrt + root.value;
    }
    assert amounts[..|donors|] == amounts;
    sum := Some(sumSqrt);
  }

  class CharityContract {
    const admin: Address
    var matchingPool: int
    var nextCharityId: nat
    var charities: map<nat, Charity>
    var donorTotals: Totals
    var donorLists: map<nat, seq<Address>>
    var leaderboard: seq<Entry>
    ghost var world: World

    ghost predicate Valid()
      reads this
    {
      && Reachable(world)
      && admin == world.admin && matchingPool == world.pool && nextCharityId == world.nextId
      && charities == world.charities && donorTotals == world.totals && donorLists == world.lists
      && leaderboard == world.board
    }

    constructor (admin: Address)
      ensures Valid() && world == Start(admin)
    {
      this.admin, matchingPool, nextCharityId := admin, 0, 1;
      charities, donorTotals, donorLists, leaderboard := map[], map[], map[], [];
      world := Start(admin);
      new;
      StartIsReachable(admin);
    }

    method AddCharity(caller: Address, wallet: Address) returns (id: Option<nat>)
      requires Valid()
      modifies this
      ensures Valid() && Commits(old(world), AfterAdd(old(world), caller, wallet), world, id.Some?)
      ensures id.Some? ==> id.value == old(nextCharityId)
    {
      if caller != admin || nextCharityId >= U32_MAX {
        return None;
      }
      NextIsReachable(world, Call.Add(caller, wallet));
      world := AfterAdd(world, caller, wallet).value;
      id := Some(nextCharityId);
      charities := charities[nextCharityId := Charity(wallet, false, 0, 0)];
      donorLists := donorLists[nextCharityId := []];
      nextCharityId := nextCharityId + 1;
    }

    method VerifyCharity(caller: Address, id: nat) returns (ok: bool)
      requires Valid()
      modifies this
      ensures Valid() && Commits(old(world), AfterVerify(old(world), caller, id), world, ok)
    {
      ok := caller == admin && id in charities;
      if ok {
        NextIsReachable(world, Call.Verify(caller, id));
        world := AfterVerify(world, caller, id).value;
        charities := charities[id := charities[id].(verified := true)];
      }
    }

    method Donate(donor: Address, id: nat, amount: i128, accepted: bool) returns (ok: bool)
      requires Valid()
      modifies this
      ensures Valid()
      ensures Commits(old(world), AfterDonate(old(world), donor, id, amount, accepted, leaderboard), world, ok)
      ensures ok == Accepts(old(world), donor, id, amount, accepted)
    {
      assert |leaderboard| <= BOARD_SIZE && (id in charities ==> id in donorLists) by { BooksAreSound(world); }
      if amount <= 0 || id !in charities || !charities[id].verified || !accepted {
        return false;
      }
      var prevTotal := Get(donorTotals, (donor, id));
      if (prevTotal == 0 && charities[id].contributorCount >= U32_MAX)
         || prevTotal + amount > I128_MAX || charities[id].totalRaised + amount > I128_MAX {
        return false;
      }
      var board := UpdateLeaderboard(leaderboard, donor, amount);
      if board.None? {
        return false;
      }
      ghost var target := WithDonation(world, donor, id, amount, board.value);
      assert AfterDonate(world, donor, id, amount, accepted, board.value) == Some(target);
      assert Reachable(target) by { NextIsReachable(world, Call.Donate(donor, id, amount, accepted, board.value)); }
      CommitDonation(donor, id, amount, board.value);
      ok := true;
    }

    method CommitDonation(donor: Address, id: nat, amount: int, board: seq<Entry>)
      requires Valid() && id in charities && id in donorLists
      requires Reachable(WithDonation(world, donor, id, amount, board))
      modifies this
      ensures Valid() && world == WithDonation(old(world), donor, id, amount, board)
    {
      RecordDonation(donor, id, amount);
      leaderboard := board;
      world := WithDonation(world, donor, id, amount, board);
    }

    method RecordDonation(donor: Address, id: nat, amount: int)
      requires id in charities && id in donorLists
      modifies this`charities, this`donorTotals, this`donorLists
      ensures var first := Get(old(donorTotals), (donor, id)) == 0;
        && donorTotals == Given(old(donorTotals), (donor, id), amount)
        && donorLists == old(donorLists)[id := Listed(old(donorLists)[id], donor, first)]
        && charities == old(charities)[id := Raised(old(charities)[id], amount, first)]
    {
      var charity, donors := charities[id], donorLists[id];
      var prevTotal := Get(donorTotals, (donor, id));
      if prevTotal == 0 {
        charity := charity.(contributorCount := charity.contributorCount + 1);
        donors := donors + [donor];
      }
      charity := charity.(totalRaised := charity.totalRaised + amount);
      donorLists := donorLists[id := donors];
      donorTotals := donorTotals[(donor, id) := prevTotal + amount];
      charities := charities[id := charity];
    }

    method FundMatchingPool(amount: i128, accepted: bool) returns (ok: bool)
      requires Valid()
      modifies this
      ensures Valid() && Commits(old(world), AfterFund(old(world), amount, accepted), world, ok)
    {
      ok := accepted && amount >= 0 && matchingPool + amount <= I128_MAX;
      if ok {
        NextIsReachable(world, Call.Fund(amount, accepted));
        world := AfterFund(world, amount, accepted).value;
        matchingPool := matchingPool + amount;
      }
    }

    /** The match, as far as the pool goes; None is an overflow. */
    method ComputePayout(id: nat) returns (pay: Option<int>)
      requires Valid() && id in charities
      ensures Payable(world, id)
      ensures var amounts := AmountsOf(world, id);
        && (pay.Some? <==> I128_MAX !in amounts && SumOfRoots(amounts) * SumOfRoots(amounts) <= I128_MAX)
        && (pay.Some? ==>
              pay.value == Least(matchingPool, SumOfRoots(amounts) * SumOfRoots(amounts) - charities[id].totalRaised))
    {
      BooksAreSound(world);
      assert Payable(world, id) by { ListedAmounts(world, id); }
      var sumSqrt := SumSqrt(donorTotals, donorLists[id], id);
      if sumSqrt.None? {
        return None;
      }
      var squared := sumSqrt.value * sumSqrt.value;
      if squared > I128_MAX {
        return None;
      }
      var qfAmount := squared - charities[id].totalRaised;
      pay := Some(if qfAmount > matchingPool then matchingPool else qfAmount);
    }

    /** Pays the square of the sum of the donors' roots less the sum of their gifts,
        as far as the pool goes. One payment is at most (donors - 1) times what was
        raised, so a single donor gets no match. */
    method DistributeMatching(caller: Address, id: nat, accepted: bool) returns (payout: Option<int>)
      requires Valid()
      modifies this
      ensures Valid() && Commits(old(world), AfterDistribute(old(world), caller, id, accepted), world, payout.Some?)
      ensures payout.Some? ==>
        && id in donorLists
        && forall gifts, roots :: Gifts(gifts, donorTotals, donorLists[id], id) && Roots(roots, gifts) ==>
             payout.value == Least(old(matchingPool), Sum(roots) * Sum(roots) - Sum(gifts))
      ensures payout.Some? ==> matchingPool == old(matchingPool) - if payout.value > 0 then payout.value else 0
      ensures payout.Some? && payout.value > 0 ==> (
        && id in charities && id in donorLists && |donorLists[id]| >= 2
        && payout.value == old(matchingPool) - matchingPool
        && payout.value <= (|donorLists[id]| - 1) * charities[id].totalRaised)
    {
      if caller != admin || id !in charities {
        return None;
      }
      payout := ComputePayout(id);
      PayoutIsPaid(world, id, accepted, payout);
      if payout.None? || (payout.value > 0 && !accepted) {
        return None;
      }
      PaymentIsQuadratic(world, id, payout.value);
      CommitPayment(id, payout.value, accepted);
    }

    method CommitPayment(id: nat, pay: int, accepted: bool)
      requires Valid() && AfterDistribute(world, admin, id, accepted) == Some(WithPayment(world, id, pay))
      modifies this`matchingPool, this`world
      ensures Valid() && world == WithPayment(old(world), id, pay)
      ensures matchingPool == old(matchingPool) - if pay > 0 then pay else 0
    {
      NextIsReachable(world, Call.Distribute(admin, id, accepted));
      world := WithPayment(world, id, pay);
      if pay > 0 {
        matchingPool := matchingPool - pay;
      }
    }
  }

  ghost predicate PaysWithin(w: World, id: nat, pay: int) {
    pay > 0 ==> id in w.charities && id in w.lists && |w.lists[id]| >= 2
                && pay <= (|w.lists[id]| - 1) * w.charities[id].totalRaised
  }

  lemma PayoutIsPaid(w: World, id: nat, accepted: bool, pay: Option<int>)
    requires Reachable(w) && id in w.charities && Payable(w, id)
    requires var amounts := AmountsOf(w, id);
      && (pay.Some? <==> I128_MAX !in amounts && SumOfRoots(amounts) * SumOfRoots(amounts) <= I128_MAX)
      && (pay.Some? ==>
            pay.value == Least(w.pool, SumOfRoots(amounts) * SumOfRoots(amounts) - w.charities[id].totalRaised))
    ensures AfterDistribute(w, w.admin, id, accepted)
         == if pay.None? || (pay.value > 0 && !accepted) then None else Some(WithPayment(w, id, pay.value))
    ensures pay.Some? ==> PaysWithin(w, id, pay.value)
  {
    BooksAreSound(w);
    assert CharitySound(w.charities[id], w.lists[id], w.totals, id);
    MatchIsBounded(AmountsOf(w, id));
  }

  lemma ListedAmounts(w: World, id: nat)
    requires Reachable(w) && id in w.charities
    ensures Payable(w, id)
  {
    BooksAreSound(w);
    assert CharitySound(w.charities[id], w.lists[id], w.totals, id);
    forall i | 0 <= i < |AmountsOf(w, id)| ensures AmountsOf(w, id)[i] >= 0 {
      assert w.lists[id][i] in w.lists[id];
    }
  }
}
