/** Policies, claims and the premium pool as a state machine. Fraud checks are
    stated against each user's full claim history. Ledger time never goes back,
    and the payment token pays out what the contract holds and no more. */
module InsuranceRuns {
  import opened Host
  import opened ClaimHistory
  import opened Arithmetic
  import Runs

  datatype Coverage = NftOnly | TokenOnly | Combined

  datatype Asset = Nft | Token

  datatype PolicyStatus = Active | Expired | Cancelled

  datatype Policy = Policy(coverage: Coverage, amount: int, paid: int, start: nat, end: nat, status: PolicyStatus)

  datatype Config = Config(
    admin: Address, baseRate: nat, nftMultiplier: nat, tokenMultiplier: nat, combinedMultiplier: nat,
    minPeriod: nat, maxPeriod: nat, maxAmount: int, maxClaims: nat, cooldown: nat, paused: bool)

  /** The stored pool next to what the token contract says this contract holds,
      and, per purpose, what moved so far. */
  datatype Funds = Funds(pool: int, balance: int, donated: nat, premiums: nat, added: nat, refunded: nat,
                         withdrawn: nat)

  datatype World = World(
    config: Config, policies: map<Address, Policy>,
    claims: Claims, histories: map<Address, seq<nat>>, counter: nat, flagged: set<Address>,
    funds: Funds, time: nat,
    rules: Rules)   // the limit and cooldown that each claim found

  function Start(admin: Address, baseRate: nat): World {
    World(Config(admin, baseRate, 150, 100, 180, 7 * DAY, 365 * DAY, 1_000_000_000_000, 3, 7 * DAY, false),
          map[], map[], map[], 0, {}, Funds(0, 0, 0, 0, 0, 0, 0), 0, map[])
  }

  function HistoryOf(histories: map<Address, seq<nat>>, user: Address): seq<nat> {
    if user in histories then histories[user] else []
  }

  // ---- Premiums ----

  predicate InRange(n: int) { -I128_MAX - 1 <= n <= I128_MAX }

  function Multiplier(c: Config, coverage: Coverage): nat {
    match coverage
    case NftOnly => c.nftMultiplier
    case TokenOnly => c.tokenMultiplier
    case Combined => c.combinedMultiplier
  }

  function Rated(c: Config, coverage: Coverage, amount: int, period: nat): int {
    amount * c.baseRate * Multiplier(c, coverage) * (period / DAY)
  }

  /** None stands for an overflow of one of the products. */
  function Premium(c: Config, coverage: Coverage, amount: int, period: nat): (p: Option<int>)
    ensures p.Some? ==> p.value >= 1
  {
    var numerator := Rated(c, coverage, amount, period);
    if !InRange(amount * c.baseRate) || !InRange(amount * c.baseRate * Multiplier(c, coverage))
       || !InRange(numerator) then None
    else
      var premium := numerator / (365 * 10_000 * 100);
      Some(if premium < 1 then 1 else premium)
  }

  /** The premium is the rated amount rounded down once, at least 1. */
  lemma PremiumIsExact(c: Config, coverage: Coverage, amount: int, period: nat)
    requires Premium(c, coverage, amount, period).Some?
    ensures var p, d := Premium(c, coverage, amount, period).value, 365 * 10_000 * 100;
      && (p > 1 ==> p * d <= Rated(c, coverage, amount, period) < (p + 1) * d)
      && (p == 1 ==> Rated(c, coverage, amount, period) < 2 * d)
  {
  }

  /** A positive amount overflows exactly if the product of its factors up to the
      first zero one does: the intermediate products never overflow on their own,
      but a zero multiplier or less than a day of cover does not undo an overflow
      that came before it. */
  lemma PremiumOverflowsIff(c: Config, coverage: Coverage, amount: int, period: nat)
    requires 0 < amount <= I128_MAX
    ensures var r, m, d := c.baseRate, Multiplier(c, coverage), period / DAY;
      Premium(c, coverage, amount, period).None? <==>
      (r > 0 && (if m == 0 then amount * r
                 else if d == 0 then amount * r * m
                 else Rated(c, coverage, amount, period)) > I128_MAX)
  {
    var r, m, d := c.baseRate, Multiplier(c, coverage), period / DAY;
    var x := amount * r;
    MulMonotone(0, amount, r);
    MulMonotone(0, x, m);
    MulMonotone(0, x * m, d);
    if m > 0 { MulMonotone(1, m, x); }
    if d > 0 { MulMonotone(1, d, x * m); }
    if r == 0 {
      assert x == 0 && x * m == 0 && x * m * d == 0;
    }
  }

  lemma RatedIsMonotone(amount: nat, amount': nat, rate: nat, m: nat, d: nat, d': nat)
    requires amount <= amount' && d <= d'
    ensures amount * rate * m * d <= amount' * rate * m * d'
  {
    MulMonotone(amount, amount', rate);
    MulMonotone(amount * rate, amount' * rate, m);
    var x, x' := amount * rate * m, amount' * rate * m;
    MulMonotone(x, x', d);
    assert x' >= 0 by { MulMonotone(0, amount' * rate, m); }
    MulMonotone(d, d', x');
  }

  /** Covering more, or for longer, never costs less. */
  lemma PremiumIsMonotone(c: Config, coverage: Coverage, amount: nat, period: nat, amount': nat, period': nat)
    requires amount <= amount' && period <= period'
    requires Premium(c, coverage, amount, period).Some? && Premium(c, coverage, amount', period').Some?
    ensures Premium(c, coverage, amount, period).value <= Premium(c, coverage, amount', period').value
  {
    assert Rated(c, coverage, amount, period) <= Rated(c, coverage, amount', period') by {
      DivMonotone(period, period', DAY);
      RatedIsMonotone(amount, amount', c.baseRate, Multiplier(c, coverage), period / DAY, period' / DAY);
    }
    DivMonotone(Rated(c, coverage, amount, period), Rated(c, coverage, amount', period'), 365 * 10_000 * 100);
  }

  // ---- Policies ----

  function WithPremium(f: Funds, premium: nat): Funds {
    f.(pool := f.pool + premium, balance := f.balance + premium, premiums := f.premiums + premium)
  }

  function AfterPurchase(w: World, owner: Address, coverage: Coverage, amount: int, period: nat, funded: bool, now: nat)
      : Option<World> {
    var c := w.config;
    if now < w.time || c.paused || amount <= 0 || amount > c.maxAmount || period < c.minPeriod || period > c.maxPeriod
       || (owner in w.policies && w.policies[owner].status == Active) then None
    else match Premium(c, coverage, amount, period)
      case None => None
      case Some(premium) =>
        if !funded || now + period > U64_MAX || w.funds.pool + premium > I128_MAX then None
        else Some(w.(policies := w.policies[owner := Policy(coverage, amount, premium, now, now + period, Active)],
                     funds := WithPremium(w.funds, premium), time := now))
  }

  function AfterRenew(w: World, owner: Address, additional: nat, funded: bool, now: nat): Option<World> {
    if now < w.time || w.config.paused || owner !in w.policies || w.policies[owner].status == Cancelled then None
    else
      var p := w.policies[owner];
      var end := (if p.end > now then p.end else now) + additional;
      if end > U64_MAX || end < p.start || end - p.start > w.config.maxPeriod then None
      else match Premium(w.config, p.coverage, p.amount, additional)
        case None => None
        case Some(premium) =>
          if !funded || p.paid + premium > I128_MAX || w.funds.pool + premium > I128_MAX then None
          else Some(w.(policies := w.policies[owner := p.(end := end, paid := p.paid + premium, status := Active)],
                       funds := WithPremium(w.funds, premium), time := now))
  }

  /** The unused part of what was paid; None stands for the checked arithmetic's
      error. */
  function Refund(p: Policy, now: nat): Option<int> {
    if p.end < p.start || now < p.start then None
    else if p.end <= now then Some(0)
    else if !InRange(p.paid * (p.end - now)) || p.end == p.start then None
    else Some(p.paid * (p.end - now) / (p.end - p.start))
  }

  function AfterCancel(w: World, owner: Address, now: nat): Option<World> {
    if now < w.time || owner !in w.policies || w.policies[owner].status != Active then None
    else match Refund(w.policies[owner], now)
      case None => None
      case Some(refund) => Refunding(w, owner, refund, now)
  }

  function Refunding(w: World, owner: Address, refund: int, now: nat): Option<World>
    requires owner in w.policies
  {
    var f := w.funds;
    var cancelled := w.policies[owner := w.policies[owner].(status := Cancelled)];
    if refund <= 0 then Some(w.(policies := cancelled, time := now))
    else if f.balance < refund || !InRange(f.pool - refund) then None
    else Some(w.(policies := cancelled, time := now,
                 funds := f.(pool := f.pool - refund, balance := f.balance - refund, refunded := f.refunded + refund)))
  }

  // ---- Claims ----

  predicate Covers(p: Policy, asset: Asset, amount: int, now: nat) {
    && p.status == Active && p.start <= now <= p.end
    && !(p.coverage == NftOnly && asset == Token) && !(p.coverage == TokenOnly && asset == Nft)
    && 0 < amount <= p.amount
  }

  /** The fraud checks, over everything the user ever claimed. */
  predicate MayClaim(w: World, user: Address, now: nat) {
    var ids := HistoryOf(w.histories, user);
    && user !in w.flagged
    && (LastTime(w.claims, ids) > 0 ==> now - LastTime(w.claims, ids) >= w.config.cooldown)
    && |Since(w.claims, ids, Horizon(now))| < w.config.maxClaims
    && |ids| < U32_MAX
  }

  function WithClaim(w: World, c: Claim): World {
    var id := w.counter + 1;
    w.(counter := id, time := c.at, claims := w.claims[id := c],
       rules := w.rules[id := Rule(w.config.maxClaims, w.config.cooldown)],
       histories := w.histories[c.owner := HistoryOf(w.histories, c.owner) + [id]])
  }

  function AfterSubmitClaim(w: World, user: Address, asset: Asset, amount: int, now: nat): Option<World> {
    if now < w.time || w.config.paused || user !in w.policies || !Covers(w.policies[user], asset, amount, now)
       || !MayClaim(w, user, now) || w.counter >= U64_MAX then None
    else Some(WithClaim(w, Claim(user, amount, now, Submitted, 0, 0)))
  }

  function AfterReview(w: World, caller: Address, id: nat, approved: bool, payout: int): Option<World> {
    if caller != w.config.admin || id !in w.claims || w.claims[id].status !in {Submitted, UnderReview}
       || (approved && !(0 < payout <= w.claims[id].amount)) then None
    else
      Some(w.(claims := w.claims[id := if approved then w.claims[id].(status := Approved, payout := payout)
                                       else w.claims[id].(status := Rejected, payout := 0)]))
  }

  function AfterPayout(w: World, caller: Address, id: nat, now: nat): Option<World> {
    if now < w.time || caller != w.config.admin || id !in w.claims || w.claims[id].status != Approved then None
    else
      var c, f := w.claims[id], w.funds;
      if f.pool < c.payout || f.balance < c.payout then None
      else Some(w.(claims := w.claims[id := c.(status := Paid, paidAt := now)], time := now,
                   funds := f.(pool := f.pool - c.payout, balance := f.balance - c.payout)))
  }

  // ---- Pool and administration ----

  function AfterAdd(w: World, caller: Address, amount: int, funded: bool): Option<World> {
    if caller != w.config.admin || amount <= 0 || !funded || w.funds.pool + amount > I128_MAX then None
    else Some(w.(funds := w.funds.(pool := w.funds.pool + amount, balance := w.funds.balance + amount,
                                   added := w.funds.added + amount)))
  }

  function Withdrawn(f: Funds, amount: nat): Funds {
    f.(pool := f.pool - amount, balance := f.balance - amount, withdrawn := f.withdrawn + amount)
  }

  function AfterWithdraw(w: World, caller: Address, amount: int): Option<World> {
    if caller != w.config.admin || amount <= 0 || w.funds.pool < amount || w.funds.balance < amount then None
    else Some(w.(funds := Withdrawn(w.funds, amount)))
  }

  function AfterEmergency(w: World, caller: Address): Option<World> {
    if caller != w.config.admin then None
    else if w.funds.pool <= 0 then Some(w)
    else if w.funds.balance < w.funds.pool then None
    else Some(w.(funds := Withdrawn(w.funds, w.funds.pool)))
  }

  function AfterFlag(w: World, caller: Address, user: Address, on: bool): Option<World> {
    if caller != w.config.admin then None
    else Some(w.(flagged := if on then w.flagged + {user} else w.flagged - {user}))
  }

  /** Any of the settings calls; the administrator stays. */
  function AfterConfigure(w: World, caller: Address, c: Config): Option<World> {
    if caller != w.config.admin || c.admin != w.config.admin then None
    else Some(w.(config := c))
  }

  /** Somebody sends the contract tokens directly. */
  function AfterDonate(w: World, amount: nat): Option<World> {
    Some(w.(funds := w.funds.(balance := w.funds.balance + amount, donated := w.funds.donated + amount)))
  }

  datatype Call =
    | Purchase(owner: Address, coverage: Coverage, amount: int, period: nat, funded: bool, now: nat)
    | Renew(owner: Address, additional: nat, funded: bool, now: nat)
    | Cancel(owner: Address, now: nat)
    | SubmitClaim(user: Address, asset: Asset, amount: int, now: nat)
    | Review(caller: Address, id: nat, approved: bool, payout: int)
    | Payout(caller: Address, id: nat, now: nat)
    | Add(caller: Address, amount: int, funded: bool)
    | Withdraw(caller: Address, amount: int)
    | Emergency(caller: Address)
    | Flag(caller: Address, user: Address, on: bool)
    | Configure(caller: Address, config: Config)
    | Donate(given: nat)

  function Next(w: World, c: Call): Option<World> {
    match c
    case Purchase(owner, coverage, amount, period, funded, now) =>
      AfterPurchase(w, owner, coverage, amount, period, funded, now)
    case Renew(owner, additional, funded, now) => AfterRenew(w, owner, additional, funded, now)
    case Cancel(owner, now) => AfterCancel(w, owner, now)
    case SubmitClaim(user, asset, amount, now) => AfterSubmitClaim(w, user, asset, amount, now)
    case Review(caller, id, approved, payout) => AfterReview(w, caller, id, approved, payout)
    case Payout(caller, id, now) => AfterPayout(w, caller, id, now)
    case Add(caller, amount, funded) => AfterAdd(w, caller, amount, funded)
    case Withdraw(caller, amount) => AfterWithdraw(w, caller, amount)
    case Emergency(caller) => AfterEmergency(w, caller)
    case Flag(caller, user, on) => AfterFlag(w, caller, user, on)
    case Configure(caller, config) => AfterConfigure(w, caller, config)
    case Donate(given) => AfterDonate(w, given)
  }

  function Step(w: World, c: Call): World {
    match Next(w, c) case Some(w') => w' case None => w
  }

  ghost predicate Reachable(w: World) {
    exists admin, baseRate: nat :: Runs.ReachableFrom(Step, Start(admin, baseRate), w)
  }

  lemma NextIsReachable(w: World, c: Call)
    requires Reachable(w) && Next(w, c).Some?
    ensures Reachable(Next(w, c).value)
  {
    var admin, baseRate: nat :| Runs.ReachableFrom(Step, Start(admin, baseRate), w);
    Runs.ReachableNext(Step, Start(admin, baseRate), w, c);
  }

  lemma StartIsReachable(admin: Address, baseRate: nat)
    ensures Reachable(Start(admin, baseRate))
  {
    Runs.ReachableNow(Step, Start(admin, baseRate));
  }
}
