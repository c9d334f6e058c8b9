/** Runs of the charity contract. Whether the payment token accepts a transfer is
    part of the call; it never accepts negative amounts. */
module CharityRuns {
  import opened Host
  import opened Arithmetic
  import opened Sums
  import opened QuadraticFunding
  import opened CharityBooks
  import Runs

  datatype World = World(
    admin: Address, pool: int, nextId: nat, charities: map<nat, Charity>, lists: map<nat, seq<Address>>,
    totals: Totals, board: seq<Entry>,
    funded: int,              // all that was ever put into the pool
    paid: map<nat, int>,      // per charity, all that was paid to it from the pool
    rounds: map<nat, int>)    // per charity, how many distributions paid something

  function Start(admin: Address): World {
    World(admin, 0, 1, map[], map[], map[], [], 0, map[], map[])
  }

  function AfterAdd(w: World, caller: Address, wallet: Address): Option<World> {
    if caller != w.admin || w.nextId >= U32_MAX then None
    else Some(w.(charities := w.charities[w.nextId := Charity(wallet, false, 0, 0)],
                 lists := w.lists[w.nextId := []], nextId := w.nextId + 1))
  }

  function AfterVerify(w: World, caller: Address, id: nat): Option<World> {
    if caller != w.admin || id !in w.charities then None
    else Some(w.(charities := w.charities[id := w.charities[id].(verified := true)]))
  }

  /** What the contract, the overflow checks and the token let through. */
  predicate Accepts(w: World, donor: Address, id: nat, amount: int, accepted: bool) {
    && amount > 0 && id in w.charities && id in w.lists && w.charities[id].verified && accepted
    && (Get(w.totals, (donor, id)) == 0 ==> w.charities[id].contributorCount < U32_MAX)
    && Get(w.totals, (donor, id)) + amount <= I128_MAX
    && w.charities[id].totalRaised + amount <= I128_MAX
    && ScoreOf(w.board, donor) + amount <= I128_MAX
  }

  function WithDonation(w: World, donor: Address, id: nat, amount: int, board: seq<Entry>): World
    requires id in w.charities && id in w.lists
  {
    var first := Get(w.totals, (donor, id)) == 0;
    w.(charities := w.charities[id := Raised(w.charities[id], amount, first)],
       lists := w.lists[id := Listed(w.lists[id], donor, first)],
       totals := Given(w.totals, (donor, id), amount), board := board)
  }

  /** `board` is what the exchange sort made of the updated leaderboard. */
  ghost function AfterDonate(w: World, donor: Address, id: nat, amount: int, accepted: bool, board: seq<Entry>)
      : Option<World> {
    if Accepts(w, donor, id, amount, accepted) && Ranked(w.board, donor, amount, board)
    then Some(WithDonation(w, donor, id, amount, board)) else None
  }

  function AfterFund(w: World, amount: int, accepted: bool): Option<World> {
    if !accepted || amount < 0 || w.pool + amount > I128_MAX then None
    else Some(w.(pool := w.pool + amount, funded := w.funded + amount))
  }

  /** What everybody on the charity's list gave to it. */
  function AmountsOf(w: World, id: nat): seq<int>
    requires id in w.lists
  {
    Amounts(w.totals, w.lists[id], id)
  }

  ghost predicate Payable(w: World, id: nat) {
    id in w.charities && id in w.lists && forall i :: 0 <= i < |AmountsOf(w, id)| ==> AmountsOf(w, id)[i] >= 0
  }

  function WithPayment(w: World, id: nat, pay: int): World {
    if pay <= 0 then w
    else w.(pool := w.pool - pay, paid := w.paid[id := Get(w.paid, id) + pay],
            rounds := w.rounds[id := Get(w.rounds, id) + 1])
  }

  ghost function AfterDistribute(w: World, caller: Address, id: nat, accepted: bool): Option<World> {
    if caller != w.admin || !Payable(w, id) then None
    else
      match Payout(AmountsOf(w, id), w.pool, accepted)
      case None => None
      case Some(pay) => Some(WithPayment(w, id, pay))
  }

  datatype Call =
    | Add(caller: Address, wallet: Address)
    | Verify(caller: Address, id: nat)
    | Donate(donor: Address, id: nat, amount: int, accepted: bool, board: seq<Entry>)
    | Fund(amount: int, accepted: bool)
    | Distribute(caller: Address, id: nat, accepted: bool)

  ghost function Next(w: World, c: Call): Option<World> {
    match c
    case Add(caller, wallet) => AfterAdd(w, caller, wallet)
    case Verify(caller, id) => AfterVerify(w, caller, id)
    case Donate(donor, id, amount, accepted, board) => AfterDonate(w, donor, id, amount, accepted, board)
    case Fund(amount, accepted) => AfterFund(w, amount, accepted)
    case Distribute(caller, id, accepted) => AfterDistribute(w, caller, id, accepted)
  }

  ghost function Step(w: World, c: Call): World {
    match Next(w, c) case Some(w') => w' case None => w
  }

  ghost predicate Reachable(w: World) {
    exists admin :: Runs.ReachableFrom(Step, Start(admin), w)
  }

  lemma NextIsReachable(w: World, c: Call)
    requires Reachable(w) && Next(w, c).Some?
    ensures Reachable(Next(w, c).value)
  {
    var admin :| Runs.ReachableFrom(Step, Start(admin), w);
    Runs.ReachableNext(Step, Start(admin), w, c);
  }

  lemma StartIsReachable(admin: Address)
    ensures Reachable(Start(admin))
  {
    Runs.ReachableNow(Step, Start(admin));
  }

  // ---- The invariant ----

  /** What one distribution may pay at most: (donors - 1) times what was raised. */
  function Bound(c: Charity, donors: seq<Address>): int {
    if donors == [] then 0 else (|donors| - 1) * c.totalRaised
  }

  predicate Within(paid: int, rounds: int, c: Charity, donors: seq<Address>) {
    c.totalRaised >= 0 && rounds >= 0 && 0 <= paid <= rounds * Bound(c, donors)
  }

  ghost predicate PaidSound(w: World) {
    && (forall id :: id in w.paid || id in w.rounds ==> id in w.charities)
    && (forall id :: id in w.charities ==>
          id in w.lists && Within(Get(w.paid, id), Get(w.rounds, id), w.charities[id], w.lists[id]))
  }

  ghost predicate Sound(w: World) {
    && BooksSound(w.charities, w.lists, w.totals, w.nextId) && BoardSound(w.board, w.totals)
    && w.pool >= 0 && w.pool == w.funded - Total(w.paid)
    && PaidSound(w)
  }

  lemma {:induction false} SumIsNonNegative(s: seq<int>)
    requires forall i :: 0 <= i < |s| ==> s[i] >= 0
    ensures Sum(s) >= 0
    decreases |s|
  {
    if s != [] { SumIsNonNegative(s[..|s| - 1]); }
  }

  /** More donors and more raised: the bound grows. */
  lemma BoundGrows(n: nat, raised: int, n': nat, raised': int, rounds: int)
    requires n <= n' && 0 <= raised <= raised' && rounds >= 0
    ensures rounds * (n * raised) <= rounds * (n' * raised')
  {
    MulMonotone(n, n', raised);
    MulMonotone(raised, raised', n');
    MulMonotone(n * raised, n' * raised', rounds);
  }

  lemma WithinGrows(paid: int, rounds: int, c: Charity, donors: seq<Address>, c': Charity, donors': seq<Address>)
    requires Within(paid, rounds, c, donors)
    requires |donors| <= |donors'| && c.totalRaised <= c'.totalRaised
    ensures Within(paid, rounds, c', donors')
  {
    if donors != [] {
      BoundGrows(|donors| - 1, c.totalRaised, |donors'| - 1, c'.totalRaised, rounds);
    } else if donors' != [] {
      BoundGrows(0, 0, |donors'| - 1, c'.totalRaised, rounds);
    }
  }

  lemma DonateKeepsPaid(w: World, donor: Address, id: nat, amount: int, board: seq<Entry>)
    requires PaidSound(w) && id in w.charities && id in w.lists && amount > 0
    ensures PaidSound(WithDonation(w, donor, id, amount, board))
  {
    var w' := WithDonation(w, donor, id, amount, board);
    WithinGrows(Get(w.paid, id), Get(w.rounds, id), w.charities[id], w.lists[id], w'.charities[id], w'.lists[id]);
  }

  lemma PaymentIsBounded(w: World, id: nat, accepted: bool)
    requires Sound(w) && Payable(w, id) && Payout(AmountsOf(w, id), w.pool, accepted).Some?
    ensures var pay := Payout(AmountsOf(w, id), w.pool, accepted).value;
      pay <= w.pool && (pay > 0 ==> pay <= Bound(w.charities[id], w.lists[id]))
  {
    MatchIsBounded(AmountsOf(w, id));
  }

  lemma OneMoreRound(paid: int, rounds: int, c: Charity, donors: seq<Address>, pay: int)
    requires Within(paid, rounds, c, donors) && 0 < pay <= Bound(c, donors)
    ensures Within(paid + pay, rounds + 1, c, donors)
  {
    assert (rounds + 1) * Bound(c, donors) == rounds * Bound(c, donors) + Bound(c, donors);
  }

  lemma PaymentKeepsPaid(w: World, id: nat, pay: int)
    requires PaidSound(w) && id in w.charities && 0 < pay <= Bound(w.charities[id], w.lists[id])
    ensures PaidSound(WithPayment(w, id, pay))
  {
    OneMoreRound(Get(w.paid, id), Get(w.rounds, id), w.charities[id], w.lists[id], pay);
  }

  lemma PaymentKeepsSound(w: World, id: nat, pay: int)
    requires Sound(w) && id in w.charities && pay <= w.pool
    requires pay > 0 ==> pay <= Bound(w.charities[id], w.lists[id])
    ensures Sound(WithPayment(w, id, pay))
  {
    if pay > 0 {
      assert PaidSound(WithPayment(w, id, pay)) by { PaymentKeepsPaid(w, id, pay); }
      TotalUpdate(w.paid, id, Get(w.paid, id) + pay);
    }
  }

  lemma DonateKeepsSound(w: World, donor: Address, id: nat, amount: int, accepted: bool, board: seq<Entry>)
    requires Sound(w) && AfterDonate(w, donor, id, amount, accepted, board).Some?
    ensures Sound(WithDonation(w, donor, id, amount, board))
  {
    DonationKeepsBooks(w.charities, w.lists, w.totals, w.nextId, id, donor, amount);
    RankedIsSound(w.board, donor, amount, id, w.totals, board);
    DonateKeepsPaid(w, donor, id, amount, board);
  }

  lemma AddKeepsSound(w: World, caller: Address, wallet: Address)
    requires Sound(w) && AfterAdd(w, caller, wallet).Some?
    ensures Sound(AfterAdd(w, caller, wallet).value)
  {
    var w' := AfterAdd(w, caller, wallet).value;
    assert forall a :: (a, w.nextId) !in w.totals;
    assert w.nextId !in w.paid && w.nextId !in w.rounds;
  }

  lemma VerifyKeepsSound(w: World, caller: Address, id: nat)
    requires Sound(w) && AfterVerify(w, caller, id).Some?
    ensures Sound(AfterVerify(w, caller, id).value)
  {
    SameNumbersSound(w, AfterVerify(w, caller, id).value);
  }

  lemma SameNumbersSound(w: World, w': World)
    requires Sound(w) && w' == w.(charities := w'.charities) && w'.charities.Keys == w.charities.Keys
    requires forall id :: id in w.charities ==>
      w'.charities[id].totalRaised == w.charities[id].totalRaised
      && w'.charities[id].contributorCount == w.charities[id].contributorCount
    ensures Sound(w')
  {
  }

  lemma StepKeepsSound(w: World, c: Call)
    requires Sound(w)
    ensures Sound(Step(w, c))
  {
    if Next(w, c).Some? {
      match c
      case Add(caller, wallet) => AddKeepsSound(w, caller, wallet);
      case Verify(caller, id) => VerifyKeepsSound(w, caller, id);
      case Donate(donor, id, amount, accepted, board) => DonateKeepsSound(w, donor, id, amount, accepted, board);
      case Fund(amount, accepted) =>
      case Distribute(caller, id, accepted) =>
        PaymentIsBounded(w, id, accepted);
        PaymentKeepsSound(w, id, Payout(AmountsOf(w, id), w.pool, accepted).value);
    }
  }

  lemma StartIsSound(admin: Address)
    ensures Sound(Start(admin))
  {
  }

  lemma ReachableIsSound(w: World)
    requires Reachable(w)
    ensures Sound(w)
  {
    var admin :| Runs.ReachableFrom(Step, Start(admin), w);
    StartIsSound(admin);
    forall v, c | Sound(v) ensures Sound(Step(v, c)) {
      StepKeepsSound(v, c);
    }
    Runs.ReachableKeeps(Step, Sound, Start(admin), w);
  }

  // ---- For every run ----

  /** Over every run the matching pool is what was put in less what was paid to
      charities, so they never get more than was put in. */
  lemma PoolIsAccounted(w: World)
    requires Reachable(w)
    ensures w.pool == w.funded - Total(w.paid) && 0 <= w.pool && 0 <= Total(w.paid) <= w.funded
  {
    ReachableIsSound(w);
    assert NonNegative(w.paid) by {
      forall id | id in w.paid ensures w.paid[id] >= 0 { assert Get(w.paid, id) >= 0; }
    }
    TotalNonNegative(w.paid);
  }

  /** The bound holds for each payment: over a run a charity gets at most
      (donors - 1) times what it raised for every distribution that paid. */
  lemma MatchingIsBoundedPerRound(w: World, id: nat)
    requires Reachable(w) && id in w.charities
    ensures id in w.lists
    ensures 0 <= Get(w.paid, id) <= Get(w.rounds, id) * Bound(w.charities[id], w.lists[id])
    ensures |w.lists[id]| <= 1 ==> Get(w.paid, id) == 0
  {
    ReachableIsSound(w);
  }

  /** Every run keeps what each charity raised equal to the sum over its
      duplicate-free donor list, and the leaderboard sound. */
  lemma BooksAreSound(w: World)
    requires Reachable(w)
    ensures BooksSound(w.charities, w.lists, w.totals, w.nextId) && BoardSound(w.board, w.totals)
  {
    ReachableIsSound(w);
  }

  function Repeat(c: Call, n: nat): seq<Call> {
    if n == 0 then [] else [c] + Repeat(c, n - 1)
  }

  /** Nothing stops a distribution from being repeated: without a donation in
      between, `n` of them pay the match `n` times, until the pool is empty. */
  lemma {:induction false} DistributionsRepeat(w: World, id: nat, n: nat)
    requires w.pool >= 0 && Payable(w, id) && Match(AmountsOf(w, id)) > 0
    requires I128_MAX !in AmountsOf(w, id) && SumOfRoots(AmountsOf(w, id)) * SumOfRoots(AmountsOf(w, id)) <= I128_MAX
    ensures var w', m := Runs.Run(Step, w, Repeat(Distribute(w.admin, id, true), n)), Match(AmountsOf(w, id));
      && w'.pool == (if n * m <= w.pool then w.pool - n * m else 0)
      && Get(w'.paid, id) == Get(w.paid, id) + w.pool - w'.pool
    decreases n
  {
    if n > 0 {
      var c, m := Distribute(w.admin, id, true), Match(AmountsOf(w, id));
      var w1 := Step(w, c);
      assert Repeat(c, n)[0] == c && Repeat(c, n)[1..] == Repeat(c, n - 1);
      var pay := if m > w.pool then w.pool else m;
      assert AfterDistribute(w, w.admin, id, true) == Some(WithPayment(w, id, pay));
      assert w1 == WithPayment(w, id, pay);
      assert AmountsOf(w1, id) == AmountsOf(w, id);
      DistributionsRepeat(w1, id, n - 1);
      OneLess(n, m);
    }
  }

  lemma OneLess(n: nat, m: int)
    requires n > 0 && m >= 0
    ensures n * m == (n - 1) * m + m && (n - 1) * m >= 0
  {
  }
}
