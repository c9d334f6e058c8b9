/** The insurance contract: storage updated in place, with a trimmed list of
    recent claims per user in place of the full history, proved against the state
    machine of InsuranceRuns. The payment token's balance of the contract is a
    field; whether a payer could pay is part of each call. */
module Insurance {
  import opened Host
  import opened ClaimHistory
  import opened InsuranceRuns
  import InsuranceProofs

  datatype Metrics = Metrics(total: nat, recent: seq<nat>, last: nat, flagged: bool)

  function MetricsOf(metrics: map<Address, Metrics>, user: Address): Metrics {
    if user in metrics then metrics[user] else Metrics(0, [], 0, false)
  }

  /** The trimmed list is what the full history shows at the last claim. */
  ghost predicate MetricsFit(m: Metrics, claims: Claims, ids: seq<nat>, flagged: bool) {
    && m.total == |ids| && m.last == LastTime(claims, ids) && m.flagged == flagged
    && m.recent == Since(claims, ids, Horizon(m.last))
  }

  ghost predicate AllFit(metrics: map<Address, Metrics>, w: World) {
    forall u {:trigger MetricsOf(metrics, u)} ::
      MetricsFit(MetricsOf(metrics, u), w.claims, HistoryOf(w.histories, u), u in w.flagged)
  }

  /** Looking through the trimmed list finds at any later time what looking
      through everything would find. */
  lemma TrimmedIsEnough(m: Metrics, claims: Claims, ids: seq<nat>, flagged: bool, now: nat)
    requires MetricsFit(m, claims, ids, flagged) && now >= m.last
    ensures Since(claims, m.recent, Horizon(now)) == Since(claims, ids, Horizon(now))
  {
    SinceTwice(claims, ids, Horizon(m.last), Horizon(now));
  }

  lemma LastAgrees(claims: Claims, claims': Claims, ids: seq<nat>)
    requires Agree(claims, claims', ids)
    ensures LastTime(claims', ids) == LastTime(claims, ids)
  {
  }

  lemma FitAgrees(m: Metrics, claims: Claims, claims': Claims, ids: seq<nat>, flagged: bool)
    requires MetricsFit(m, claims, ids, flagged) && Agree(claims, claims', ids)
    ensures MetricsFit(m, claims', ids, flagged)
  {
    LastAgrees(claims, claims', ids);
    SinceAgrees(claims, claims', ids, Horizon(m.last));
  }

  /** Reviews and payouts change no metrics. */
  lemma FitKept(metrics: map<Address, Metrics>, w: World, w': World)
    requires Reachable(w) && AllFit(metrics, w) && w'.histories == w.histories && w'.flagged == w.flagged
    requires w'.claims.Keys == w.claims.Keys
    requires forall id :: id in w.claims ==>
      w'.claims[id].owner == w.claims[id].owner && w'.claims[id].at == w.claims[id].at
    ensures AllFit(metrics, w')
  {
    forall u ensures MetricsFit(MetricsOf(metrics, u), w'.claims, HistoryOf(w'.histories, u), u in w'.flagged) {
      assert Agree(w.claims, w'.claims, HistoryOf(w.histories, u)) by { HistoryInClaims(w, u); }
      FitAgrees(MetricsOf(metrics, u), w.claims, w'.claims, HistoryOf(w.histories, u), u in w.flagged);
    }
  }

  lemma FlagKeepsFit(metrics: map<Address, Metrics>, w: World, user: Address, on: bool)
    requires AllFit(metrics, w)
    ensures AllFit(metrics[user := MetricsOf(metrics, user).(flagged := on)],
                   w.(flagged := if on then w.flagged + {user} else w.flagged - {user}))
    ensures user !in metrics ==> AllFit(metrics, w.(flagged := w.flagged - {user}))
  {
    var metrics' := metrics[user := MetricsOf(metrics, user).(flagged := on)];
    assert forall u :: u != user ==> MetricsOf(metrics', u) == MetricsOf(metrics, u);
  }

  lemma HistoryInClaims(w: World, u: Address)
    requires Reachable(w)
    ensures UserSound(w.claims, w.rules, HistoryOf(w.histories, u), u, w.time)
    ensures LastTime(w.claims, HistoryOf(w.histories, u)) <= w.time
    ensures w.counter + 1 !in w.claims
  {
    InsuranceProofs.ReachableIsSound(w);
    assert UserSound(w.claims, w.rules, HistoryOf(w.histories, u), u, w.time);
  }

  /** One more claim in the metrics: those no longer recent leave the list. */
  function Appended(m: Metrics, claims: Claims, id: nat, now: nat): Metrics {
    Metrics(m.total + 1, Since(claims, m.recent, Horizon(now)) + [id], now, m.flagged)
  }

  lemma FitAppends(m: Metrics, claims: Claims, ids: seq<nat>, flagged: bool, id: nat, c: Claim)
    requires MetricsFit(m, claims, ids, flagged) && id !in claims && m.last <= c.at
    requires Agree(claims, claims[id := c], ids)
    ensures MetricsFit(Appended(m, claims, id, c.at), claims[id := c], ids + [id], flagged)
  {
    TrimmedIsEnough(m, claims, ids, flagged, c.at);
    SinceAgrees(claims, claims[id := c], ids, Horizon(c.at));
    assert (ids + [id])[..|ids|] == ids;
  }

  lemma UserFitsAfterClaim(metrics: map<Address, Metrics>, w: World, claims': Claims, c: Claim, u: Address)
    requires Reachable(w) && AllFit(metrics, w) && c.at >= w.time && claims' == w.claims[w.counter + 1 := c]
    ensures var ids, m, id := HistoryOf(w.histories, u), MetricsOf(metrics, u), w.counter + 1;
      if u == c.owner then MetricsFit(Appended(m, w.claims, id, c.at), claims', ids + [id], u in w.flagged)
      else MetricsFit(m, claims', ids, u in w.flagged)
  {
    var ids, m, id := HistoryOf(w.histories, u), MetricsOf(metrics, u), w.counter + 1;
    assert Agree(w.claims, claims', ids) && LastTime(w.claims, ids) <= w.time && id !in w.claims by {
      HistoryInClaims(w, u);
    }
    assert MetricsFit(m, w.claims, ids, u in w.flagged);
    if u == c.owner {
      FitAppends(m, w.claims, ids, u in w.flagged, id, c);
    } else {
      FitAgrees(m, w.claims, claims', ids, u in w.flagged);
    }
  }

  /** The new claim enters the trimmed list behind those still recent. */
  lemma FitAfterClaim(metrics: map<Address, Metrics>, w: World, c: Claim)
    requires Reachable(w) && AllFit(metrics, w) && c.at >= w.time
    ensures AllFit(metrics[c.owner := Appended(MetricsOf(metrics, c.owner), w.claims, w.counter + 1, c.at)],
                   WithClaim(w, c))
  {
    var w' := WithClaim(w, c);
    var metrics' := metrics[c.owner := Appended(MetricsOf(metrics, c.owner), w.claims, w.counter + 1, c.at)];
    forall u ensures MetricsFit(MetricsOf(metrics', u), w'.claims, HistoryOf(w'.histories, u), u in w'.flagged) {
      UserFitsAfterClaim(metrics, w, w'.claims, c, u);
    }
  }

  class Insurance {
    var config: Config
    var policies: map<Address, Policy>
    var claims: Claims
    var userClaims: map<Address, seq<nat>>
    var claimCounter: nat
    var metrics: map<Address, Metrics>
    var pool: int
    var balance: int
    ghost var world: World

    /** The contract is in the state `w` of the machine. */
    ghost predicate IsIn(w: World)
      reads this`config, this`policies, this`claims, this`userClaims, this`claimCounter, this`pool, this`balance,
            this`metrics
    {
      && Reachable(w)
      && config == w.config && policies == w.policies && claims == w.claims
      && userClaims == w.histories && claimCounter == w.counter
      && pool == w.funds.pool && balance == w.funds.balance
      && AllFit(metrics, w)
    }

    ghost predicate Valid()
      reads this
    {
      IsIn(world)
    }

    ghost method Adopt(target: World)
      requires IsIn(target)
      modifies this`world
      ensures Valid() && world == target
    {
      world := target;
    }

    constructor (admin: Address, baseRate: u32)
      ensures Valid() && world == Start(admin, baseRate)
    {
      config := Config(admin, baseRate, 150, 100, 180, 7 * DAY, 365 * DAY, 1_000_000_000_000, 3, 7 * DAY, false);
      policies, claims, userClaims, claimCounter, metrics, pool, balance := map[], map[], map[], 0, map[], 0, 0;
      world := Start(admin, baseRate);
      new;
      StartIsReachable(admin, baseRate);
    }

    // ---- Policies ----

    method PurchasePolicy(owner: Address, coverage: Coverage, amount: i128, period: u64, funded: bool, now: u64)
        returns (ok: bool)
      requires Valid() && now >= world.time
      modifies this
      ensures Valid()
      ensures Commits(old(world), AfterPurchase(old(world), owner, coverage, amount, period, funded, now), world, ok)
    {
      if config.paused || amount <= 0 || amount > config.maxAmount
         || period < config.minPeriod || period > config.maxPeriod {
        return false;
      }
      if owner in policies && policies[owner].status == Active {
        return false;
      }
      var premium := Premium(config, coverage, amount, period);
      if premium.None? || !funded || now + period > U64_MAX || pool + premium.value > I128_MAX {
        return false;
      }
      ghost var next := AfterPurchase(world, owner, coverage, amount, period, funded, now);
      assert Reachable(next.value) by {
        NextIsReachable(world, Call.Purchase(owner, coverage, amount, period, funded, now));
      }
      policies := policies[owner := Policy(coverage, amount, premium.value, now, now + period, Active)];
      pool, balance := pool + premium.value, balance + premium.value;
      Adopt(next.value);
      ok := true;
    }

    method RenewPolicy(owner: Address, additional: u64, funded: bool, now: u64) returns (ok: bool)
      requires Valid() && now >= world.time
      modifies this
      ensures Valid() && Commits(old(world), AfterRenew(old(world), owner, additional, funded, now), world, ok)
    {
      if config.paused || owner !in policies || policies[owner].status == Cancelled {
        return false;
      }
      var p := policies[owner];
      var end := (if p.end > now then p.end else now) + additional;
      if end > U64_MAX || end < p.start || end - p.start > config.maxPeriod {
        return false;
      }
      var premium := Premium(config, p.coverage, p.amount, additional);
      if premium.None? || !funded || p.paid + premium.value > I128_MAX || pool + premium.value > I128_MAX {
        return false;
      }
      ghost var next := AfterRenew(world, owner, additional, funded, now);
      assert Reachable(next.value) by { NextIsReachable(world, Call.Renew(owner, additional, funded, now)); }
      policies := policies[owner := p.(end := end, paid := p.paid + premium.value, status := Active)];
      pool, balance := pool + premium.value, balance + premium.value;
      Adopt(next.value);
      ok := true;
    }

    method CancelPolicy(owner: Address, now: u64) returns (ok: bool)
      requires Valid() && now >= world.time
      modifies this
      ensures Valid() && Commits(old(world), AfterCancel(old(world), owner, now), world, ok)
    {
      if owner !in policies || policies[owner].status != Active {
        return false;
      }
      var refund := Refund(policies[owner], now);
      if refund.None? {
        return false;
      }
      ghost var next := Refunding(world, owner, refund.value, now);
      assert next == AfterCancel(world, owner, now);
      assert next.Some? ==> Reachable(next.value) by {
        if next.Some? { NextIsReachable(world, Call.Cancel(owner, now)); }
      }
      ok := PayRefund(owner, refund.value, now);
    }

    method PayRefund(owner: Address, refund: int, now: u64) returns (ok: bool)
      requires Valid() && owner in policies
      requires var next := Refunding(world, owner, refund, now); next.Some? ==> Reachable(next.value)
      modifies this
      ensures Valid() && Commits(old(world), Refunding(old(world), owner, refund, now), world, ok)
    {
      if refund > 0 && (balance < refund || !InRange(pool - refund)) {
        return false;
      }
      ghost var next := Refunding(world, owner, refund, now);
      policies := policies[owner := policies[owner].(status := Cancelled)];
      if refund > 0 {
        pool, balance := pool - refund, balance - refund;
      }
      Adopt(next.value);
      ok := true;
    }

    // ---- Claims ----

    /** The checks look at the trimmed list only, and decide as the full history
        would. */
    method CheckFraud(user: Address, now: u64) returns (ok: bool)
      requires Valid() && now >= world.time
      ensures ok && MetricsOf(metrics, user).total < U32_MAX <==> MayClaim(world, user, now)
    {
      var m := MetricsOf(metrics, user);
      HistoryInClaims(world, user);
      TrimmedIsEnough(m, claims, HistoryOf(userClaims, user), m.flagged, now);
      if m.flagged {
        return false;
      }
      if m.last > 0 && now - m.last < config.cooldown {
        return false;
      }
      var count := CountRecent(m.recent, now);
      ok := count < config.maxClaims;
    }

    method CountRecent(ids: seq<nat>, now: nat) returns (count: nat)
      ensures count == |Since(claims, ids, Horizon(now))|
    {
      count := 0;
      for i := 0 to |ids|
        invariant count == |Since(claims, ids[..i], Horizon(now))|
      {
        assert ids[..i + 1][..i] == ids[..i];
        if ids[i] in claims && claims[ids[i]].at >= Horizon(now) {
          count := count + 1;
        }
      }
      assert ids[..|ids|] == ids;
    }

    method StillRecent(ids: seq<nat>, now: nat) returns (recent: seq<nat>)
      ensures recent == Since(claims, ids, Horizon(now))
    {
      recent := [];
      for i := 0 to |ids|
        invariant recent == Since(claims, ids[..i], Horizon(now))
      {
        assert ids[..i + 1][..i] == ids[..i];
        if ids[i] in claims && claims[ids[i]].at >= Horizon(now) {
          recent := recent + [ids[i]];
        }
      }
      assert ids[..|ids|] == ids;
    }

    method UpdateFraudMetrics(user: Address, id: nat, now: nat)
      modifies this`metrics
      ensures metrics == old(metrics)[user := Appended(MetricsOf(old(metrics), user), claims, id, now)]
    {
      var m := MetricsOf(metrics, user);
      var recent := StillRecent(m.recent, now);
      metrics := metrics[user := Metrics(m.total + 1, recent + [id], now, m.flagged)];
    }

    method SubmitClaim(user: Address, asset: Asset, amount: i128, now: u64) returns (id: Option<nat>)
      requires Valid() && now >= world.time
      modifies this
      ensures Valid() && Commits(old(world), AfterSubmitClaim(old(world), user, asset, amount, now), world, id.Some?)
      ensures id.Some? ==> id.value == world.counter
    {
      var may := MaySubmit(user, asset, amount, now);
      if !may {
        return None;
      }
      var c := Claim(user, amount, now, Submitted, 0, 0);
      assert Reachable(WithClaim(world, c)) by {
        NextIsReachable(world, Call.SubmitClaim(user, asset, amount, now));
      }
      FitAfterClaim(metrics, world, c);
      CommitClaim(c, metrics[c.owner := Appended(MetricsOf(metrics, c.owner), world.claims, world.counter + 1, c.at)],
                  WithClaim(world, c));
      id := Some(claimCounter);
    }

    method CommitClaim(c: Claim, ghost fitting: map<Address, Metrics>, ghost next: World)
      requires Valid() && next == WithClaim(world, c) && Reachable(next) && AllFit(fitting, next)
      requires fitting
            == metrics[c.owner := Appended(MetricsOf(metrics, c.owner), world.claims, world.counter + 1, c.at)]
      modifies this
      ensures Valid() && world == next
    {
      RecordClaim(c, fitting);
      Adopt(next);
    }

    /** Everything checked before a claim is taken. */
    method MaySubmit(user: Address, asset: Asset, amount: i128, now: u64) returns (may: bool)
      requires Valid() && now >= world.time
      ensures may == AfterSubmitClaim(world, user, asset, amount, now).Some?
    {
      if config.paused || user !in policies || !Covers(policies[user], asset, amount, now) {
        return false;
      }
      var ok := CheckFraud(user, now);
      may := ok && MetricsOf(metrics, user).total < U32_MAX && claimCounter < U64_MAX;
    }

    method RecordClaim(c: Claim, ghost fitting: map<Address, Metrics>)
      requires fitting
            == metrics[c.owner := Appended(MetricsOf(metrics, c.owner), claims, claimCounter + 1, c.at)]
      modifies this`claimCounter, this`claims, this`userClaims, this`metrics
      ensures claimCounter == old(claimCounter) + 1 && claims == old(claims)[claimCounter := c]
      ensures userClaims == old(userClaims)[c.owner := HistoryOf(old(userClaims), c.owner) + [claimCounter]]
      ensures metrics == fitting
    {
      UpdateFraudMetrics(c.owner, claimCounter + 1, c.at);
      claimCounter := claimCounter + 1;
      claims := claims[claimCounter := c];
      userClaims := userClaims[c.owner := HistoryOf(userClaims, c.owner) + [claimCounter]];
    }

    method ReviewClaim(caller: Address, id: nat, approved: bool, payout: i128) returns (ok: bool)
      requires Valid()
      modifies this
      ensures Valid() && Commits(old(world), AfterReview(old(world), caller, id, approved, payout), world, ok)
    {
      if caller != config.admin || id !in claims || claims[id].status !in {Submitted, UnderReview}
         || (approved && (payout <= 0 || payout > claims[id].amount)) {
        return false;
      }
      ghost var next := AfterReview(world, caller, id, approved, payout);
      assert Reachable(next.value) by { NextIsReachable(world, Call.Review(caller, id, approved, payout)); }
      FitKept(metrics, world, next.value);
      var c := if approved then claims[id].(status := Approved, payout := payout)
               else claims[id].(status := Rejected, payout := 0);
      claims := claims[id := c];
      Adopt(next.value);
      ok := true;
    }

    method ProcessPayout(caller: Address, id: nat, now: u64) returns (ok: bool)
      requires Valid() && now >= world.time
      modifies this
      ensures Valid() && Commits(old(world), AfterPayout(old(world), caller, id, now), world, ok)
    {
      if caller != config.admin || id !in claims || claims[id].status != Approved {
        return false;
      }
      var c := claims[id];
      if pool < c.payout || balance < c.payout {
        return false;
      }
      ghost var next := AfterPayout(world, caller, id, now);
      assert Reachable(next.value) by { NextIsReachable(world, Call.Payout(caller, id, now)); }
      FitKept(metrics, world, next.value);
      claims := claims[id := c.(status := Paid, paidAt := now)];
      pool, balance := pool - c.payout, balance - c.payout;
      Adopt(next.value);
      ok := true;
    }

    // ---- Pool ----

    method AddToPool(caller: Address, amount: i128, funded: bool) returns (ok: bool)
      requires Valid()
      modifies this
      ensures Valid() && Commits(old(world), AfterAdd(old(world), caller, amount, funded), world, ok)
    {
      ok := caller == config.admin && amount > 0 && funded && pool + amount <= I128_MAX;
      if ok {
        NextIsReachable(world, Call.Add(caller, amount, funded));
        world := AfterAdd(world, caller, amount, funded).value;
        pool, balance := pool + amount, balance + amount;
      }
    }

    method WithdrawFromPool(caller: Address, amount: i128) returns (ok: bool)
      requires Valid()
      modifies this
      ensures Valid() && Commits(old(world), AfterWithdraw(old(world), caller, amount), world, ok)
    {
      ok := caller == config.admin && amount > 0 && pool >= amount && balance >= amount;
      if ok {
        NextIsReachable(world, Call.Withdraw(caller, amount));
        world := AfterWithdraw(world, caller, amount).value;
        pool, balance := pool - amount, balance - amount;
      }
    }

    method EmergencyWithdraw(caller: Address) returns (drained: Option<int>)
      requires Valid()
      modifies this
      ensures Valid() && Commits(old(world), AfterEmergency(old(world), caller), world, drained.Some?)
      ensures drained.Some? ==> drained.value == old(pool) && pool <= 0
    {
      if caller != config.admin || (pool > 0 && balance < pool) {
        return None;
      }
      drained := Some(pool);
      if pool > 0 {
        NextIsReachable(world, Call.Emergency(caller));
        world := AfterEmergency(world, caller).value;
        balance, pool := balance - pool, 0;
      }
    }

    // ---- Administration ----

    method FlagUser(caller: Address, user: Address) returns (ok: bool)
      requires Valid()
      modifies this
      ensures Valid() && Commits(old(world), AfterFlag(old(world), caller, user, true), world, ok)
    {
      ok := caller == config.admin;
      if ok {
        NextIsReachable(world, Call.Flag(caller, user, true));
        FlagKeepsFit(metrics, world, user, true);
        world := AfterFlag(world, caller, user, true).value;
        metrics := metrics[user := MetricsOf(metrics, user).(flagged := true)];
      }
    }

    method UnflagUser(caller: Address, user: Address) returns (ok: bool)
      requires Valid()
      modifies this
      ensures Valid() && Commits(old(world), AfterFlag(old(world), caller, user, false), world, ok)
    {
      ok := caller == config.admin;
      if ok {
        NextIsReachable(world, Call.Flag(caller, user, false));
        FlagKeepsFit(metrics, world, user, false);
        world := AfterFlag(world, caller, user, false).value;
        if user in metrics {
          metrics := metrics[user := metrics[user].(flagged := false)];
        }
      }
    }

    method Configure(caller: Address, c: Config) returns (ok: bool)
      requires Valid() && c.admin == config.admin
      modifies this
      ensures Valid() && Commits(old(world), AfterConfigure(old(world), caller, c), world, ok)
    {
      ok := caller == config.admin;
      if ok {
        NextIsReachable(world, Call.Configure(caller, c));
        world := AfterConfigure(world, caller, c).value;
        config := c;
      }
    }

    method UpdateFraudParams(caller: Address, maxClaims: u32, cooldown: u64) returns (ok: bool)
      requires Valid()
      modifies this
      ensures Valid()
      ensures Commits(old(world),
                      AfterConfigure(old(world), caller,
                                     old(config).(maxClaims := maxClaims, cooldown := cooldown)), world, ok)
    {
      ok := Configure(caller, config.(maxClaims := maxClaims, cooldown := cooldown));
    }

    method UpdatePremiumRates(caller: Address, base: u32, nft: u32, token: u32, combined: u32) returns (ok: bool)
      requires Valid()
      modifies this
      ensures Valid()
      ensures var c := old(config).(baseRate := base, nftMultiplier := nft, tokenMultiplier := token,
                                    combinedMultiplier := combined);
        Commits(old(world), AfterConfigure(old(world), caller, c), world, ok)
    {
      ok := Configure(caller,
                      config.(baseRate := base, nftMultiplier := nft, tokenMultiplier := token,
                              combinedMultiplier := combined));
    }

    method UpdateCoverageLimits(caller: Address, minPeriod: u64, maxPeriod: u64, maxAmount: i128) returns (ok: bool)
      requires Valid()
      modifies this
      ensures Valid()
      ensures var c := old(config).(minPeriod := minPeriod, maxPeriod := maxPeriod, maxAmount := maxAmount);
        Commits(old(world), AfterConfigure(old(world), caller, c), world, ok)
    {
      ok := Configure(caller, config.(minPeriod := minPeriod, maxPeriod := maxPeriod, maxAmount := maxAmount));
    }

    method SetPaused(caller: Address, paused: bool) returns (ok: bool)
      requires Valid()
      modifies this
      ensures Valid()
      ensures Commits(old(world), AfterConfigure(old(world), caller, old(config).(paused := paused)), world, ok)
    {
      ok := Configure(caller, config.(paused := paused));
    }
  }
}
