/** What each accepted call of the insurance contract needs and does: what a premium
    charges, what a refund gives back, what a claim is checked against. */
module InsuranceLaws {
  import opened Host
  import opened ClaimHistory
  import opened InsuranceRuns
  import opened InsuranceProofs

  /** 7 and 365 days, 3 claims in 30 days a week apart, and the multipliers 150, 100
      and 180 percent. */
  lemma DefaultsAreSet(admin: Address, baseRate: nat)
    ensures var w := Start(admin, baseRate);
      && w.config.admin == admin && w.config.baseRate == baseRate && !w.config.paused
      && w.config.nftMultiplier == 150 && w.config.tokenMultiplier == 100 && w.config.combinedMultiplier == 180
      && w.config.minPeriod == 604_800 && w.config.maxPeriod == 31_536_000
      && w.config.maxAmount == 1_000_000_000_000 && w.config.maxClaims == 3 && w.config.cooldown == 604_800
      && w.funds.pool == w.funds.balance == 0 && w.policies == map[] && w.claims == map[]
  {
  }

  // ---- Premiums ----

  /** What covers `amount` for the whole days of `period`: the rate is in hundredths of
      a percent a year, the multiplier of the kind of coverage in percent. */
  function Rating(c: Config, coverage: Coverage, amount: int, period: nat): int {
    amount * c.baseRate
    * (if coverage.NftOnly? then c.nftMultiplier else if coverage.TokenOnly? then c.tokenMultiplier
       else c.combinedMultiplier)
    * (period / 86_400)
  }

  /** `premium` is the rating over 365 * 10000 * 100, rounded down, and at least 1. */
  ghost predicate IsPremium(premium: int, c: Config, coverage: Coverage, amount: int, period: nat) {
    var rating := Rating(c, coverage, amount, period);
    && premium >= 1 && rating < (premium + 1) * 365_000_000
    && (premium > 1 ==> premium * 365_000_000 <= rating)
  }

  lemma PremiumIsRated(c: Config, coverage: Coverage, amount: int, period: nat)
    ensures Premium(c, coverage, amount, period).Some? ==>
      IsPremium(Premium(c, coverage, amount, period).value, c, coverage, amount, period)
  {
    if Premium(c, coverage, amount, period).Some? {
      PremiumIsExact(c, coverage, amount, period);
      assert Rating(c, coverage, amount, period) == Rated(c, coverage, amount, period);
    }
  }

  ghost predicate OnlyPolicy(w: World, w': World, owner: Address) {
    && owner in w'.policies && w'.policies == w.policies[owner := w'.policies[owner]]
    && w' == w.(policies := w'.policies, funds := w'.funds, time := w'.time)
  }

  /** `amount` came into the pool as a premium. */
  ghost predicate Charged(w: World, w': World, amount: int) {
    && w'.funds.pool == w.funds.pool + amount && w'.funds.balance == w.funds.balance + amount
    && w'.funds.premiums == w.funds.premiums + amount
    && w'.funds == w.funds.(pool := w'.funds.pool, balance := w'.funds.balance, premiums := w'.funds.premiums)
  }

  /** A policy is bought within the limits, by somebody without an active one, for the
      premium, and runs from now on for the period. */
  lemma PurchaseCharges(w: World, owner: Address, coverage: Coverage, amount: int, period: nat, funded: bool, now: nat)
    ensures var next, c := Next(w, Purchase(owner, coverage, amount, period, funded, now)), w.config;
      && (next.Some? ==>
            && !c.paused && 0 < amount <= c.maxAmount && c.minPeriod <= period <= c.maxPeriod && funded
            && w.time <= now && !(owner in w.policies && w.policies[owner].status == Active))
      && (next.Some? ==>
            var w', p := next.value, next.value.policies[owner];
            && OnlyPolicy(w, w', owner) && w'.time == now && Charged(w, w', p.paid)
            && p.coverage == coverage && p.amount == amount && p.status == Active
            && p.start == now && p.end - now == period && IsPremium(p.paid, c, coverage, amount, period))
  {
    PremiumIsRated(w.config, coverage, amount, period);
  }

  /** Nothing else stands in the way of a purchase but an overflow. */
  lemma PurchaseSucceeds(w: World, owner: Address, coverage: Coverage, amount: int, period: nat, now: nat)
    requires !w.config.paused && 0 < amount <= w.config.maxAmount && amount <= I128_MAX
    requires w.config.minPeriod <= period <= w.config.maxPeriod && w.time <= now && now + period <= U64_MAX
    requires !(owner in w.policies && w.policies[owner].status == Active)
    requires amount * w.config.baseRate <= I128_MAX
    requires amount * w.config.baseRate * Multiplier(w.config, coverage) <= I128_MAX
    requires Rating(w.config, coverage, amount, period) <= I128_MAX
    requires w.funds.pool + Rating(w.config, coverage, amount, period) + 1 <= I128_MAX
    ensures Next(w, Purchase(owner, coverage, amount, period, true, now)).Some?
  {
    var r := w.config.baseRate;
    var m := Multiplier(w.config, coverage);
    assert amount * r >= 0;
    assert amount * r * m >= 0;
    assert Rating(w.config, coverage, amount, period) == Rated(w.config, coverage, amount, period) >= 0;
  }

  /** A renewal adds its period behind the end of the policy, or from now on if that
      has passed, for the premium of the additional period. */
  lemma RenewalExtends(w: World, owner: Address, additional: nat, funded: bool, now: nat)
    ensures var next := Next(w, Renew(owner, additional, funded, now));
      && (next.Some? ==> owner in w.policies && w.policies[owner].status != Cancelled && !w.config.paused && funded
                         && w.time <= now)
      && (next.Some? ==>
            var w', was, p := next.value, w.policies[owner], next.value.policies[owner];
            && OnlyPolicy(w, w', owner) && w'.time == now && Charged(w, w', p.paid - was.paid)
            && p.coverage == was.coverage && p.amount == was.amount && p.start == was.start && p.status == Active
            && p.end == (if was.end < now then now else was.end) + additional
            && p.end - p.start <= w.config.maxPeriod
            && IsPremium(p.paid - was.paid, w.config, was.coverage, was.amount, additional))
  {
    if owner in w.policies {
      PremiumIsRated(w.config, w.policies[owner].coverage, w.policies[owner].amount, additional);
    }
  }

  /** Nothing else stands in the way of a renewal but an overflow. */
  lemma RenewalSucceeds(w: World, owner: Address, additional: nat, now: nat)
    requires !w.config.paused && owner in w.policies && w.policies[owner].status != Cancelled && w.time <= now
    requires var p := w.policies[owner];
      && p.start <= now && 0 < p.amount <= I128_MAX && p.amount * w.config.baseRate <= I128_MAX
      && p.amount * w.config.baseRate * Multiplier(w.config, p.coverage) <= I128_MAX
      && Rating(w.config, p.coverage, p.amount, additional) <= I128_MAX
      && p.paid + Rating(w.config, p.coverage, p.amount, additional) + 1 <= I128_MAX
      && w.funds.pool + Rating(w.config, p.coverage, p.amount, additional) + 1 <= I128_MAX
      && var end := (if p.end < now then now else p.end) + additional;
         end <= U64_MAX && end - p.start <= w.config.maxPeriod
    ensures Next(w, Renew(owner, additional, true, now)).Some?
  {
    var p := w.policies[owner];
    assert p.amount * w.config.baseRate >= 0;
    assert p.amount * w.config.baseRate * Multiplier(w.config, p.coverage) >= 0;
    assert Rating(w.config, p.coverage, p.amount, additional)
        == Rated(w.config, p.coverage, p.amount, additional) >= 0;
  }

  /** An active policy can always be cancelled while the balance covers what was paid. */
  lemma CancellationSucceeds(w: World, owner: Address, now: nat)
    requires Reachable(w) && w.time <= now && owner in w.policies && w.policies[owner].status == Active
    requires w.policies[owner].paid <= w.funds.balance && w.policies[owner].paid <= I128_MAX
    requires 0 <= w.funds.pool <= I128_MAX
    requires now < w.policies[owner].end ==>
      w.policies[owner].paid * (w.policies[owner].end - now) <= I128_MAX
    ensures Next(w, Cancel(owner, now)).Some?
  {
    PolicyIsSound(w, owner);
    RefundExists(w.policies[owner], now);
    RefundIsPart(w.policies[owner], now);
    RefundGoesThrough(w, owner, Refund(w.policies[owner], now).value, now);
  }

  lemma PolicyIsSound(w: World, owner: Address)
    requires Reachable(w) && owner in w.policies
    ensures var p := w.policies[owner]; p.paid >= 0 && p.start <= p.end && p.start <= w.time
  {
    ReachableIsSound(w);
  }

  lemma RefundGoesThrough(w: World, owner: Address, refund: int, now: nat)
    requires owner in w.policies && 0 <= refund <= w.funds.balance && refund <= I128_MAX
    requires 0 <= w.funds.pool <= I128_MAX
    ensures Refunding(w, owner, refund, now).Some?
  {
  }

  lemma RefundExists(p: Policy, now: nat)
    requires p.paid >= 0 && p.start <= p.end && p.start <= now
    requires now < p.end ==> p.paid * (p.end - now) <= I128_MAX
    ensures Refund(p, now).Some?
  {
    if now < p.end { assert p.paid * (p.end - now) >= 0; }
  }

  /** A cancellation gives back what was paid times the unused share of the period,
      rounded down, out of pool and balance, and nothing once the policy has ended. */
  lemma CancellationRefunds(w: World, owner: Address, now: nat)
    requires Reachable(w)
    ensures var next := Next(w, Cancel(owner, now));
      && (next.Some? ==> owner in w.policies && w.policies[owner].status == Active && w.time <= now)
      && (next.Some? ==>
            var w', p, refund := next.value, w.policies[owner], w.funds.pool - next.value.funds.pool;
            && OnlyPolicy(w, w', owner) && w'.time == now && w'.policies[owner] == p.(status := Cancelled)
            && (p.end <= now ==> refund == 0)
            && (now < p.end ==> refund * (p.end - p.start) <= p.paid * (p.end - now) < (refund + 1) * (p.end - p.start))
            && w'.funds == w.funds.(pool := w.funds.pool - refund, balance := w.funds.balance - refund,
                                    refunded := w'.funds.refunded)
            && w'.funds.refunded == w.funds.refunded + refund)
  {
    ReachableIsSound(w);
    if Next(w, Cancel(owner, now)).Some? {
      RefundIsPart(w.policies[owner], now);
      if now < w.policies[owner].end { RefundIsProrated(w.policies[owner], now); }
    }
  }

  // ---- Claims ----

  ghost predicate OnlyClaim(w: World, w': World, id: nat) {
    id in w'.claims && w'.claims == w.claims[id := w'.claims[id]] && w'.config == w.config && w'.policies == w.policies
  }

  /** The user's claims of the last 30 days. */
  ghost function RecentClaims(w: World, user: Address, now: nat): set<nat> {
    set id | id in w.claims && w.claims[id].owner == user && w.claims[id].at + 30 * 86_400 >= now
  }

  /** The claim is for what the user's policy covers, and not for more. */
  ghost predicate Covered(w: World, user: Address, asset: Asset, amount: int, now: nat) {
    && user in w.policies && w.policies[user].status == Active
    && w.policies[user].start <= now <= w.policies[user].end && 0 < amount <= w.policies[user].amount
    && (asset == Nft ==> w.policies[user].coverage in {NftOnly, Combined})
    && (asset == Token ==> w.policies[user].coverage in {TokenOnly, Combined})
  }

  lemma {:induction false} SinceMembers(claims: Claims, ids: seq<nat>, from: nat)
    ensures forall id :: id in Since(claims, ids, from) <==> id in ids && id in claims && claims[id].at >= from
    decreases |ids|
  {
    if ids != [] {
      assert ids == ids[..|ids| - 1] + [ids[|ids| - 1]];
      SinceMembers(claims, ids[..|ids| - 1], from);
    }
  }

  ghost predicate Rising(s: seq<nat>) {
    forall i, j :: 0 <= i < j < |s| ==> s[i] < s[j]
  }

  lemma RisingAppended(s: seq<nat>, x: nat)
    requires Rising(s) && forall k :: k in s ==> k < x
    ensures Rising(s + [x])
  {
    forall i, j | 0 <= i < j < |s + [x]| ensures (s + [x])[i] < (s + [x])[j] {
      assert s[i] in s;
    }
  }

  lemma {:induction false} SinceRises(claims: Claims, ids: seq<nat>, from: nat)
    requires Rising(ids)
    ensures Rising(Since(claims, ids, from))
    decreases |ids|
  {
    if ids != [] {
      var init, last := ids[..|ids| - 1], ids[|ids| - 1];
      SinceRises(claims, init, from);
      SinceMembers(claims, init, from);
      forall k | k in Since(claims, init, from) ensures k < last {
        var i :| 0 <= i < |init| && init[i] == k;
        assert ids[i] == k;
      }
      RisingAppended(Since(claims, init, from), last);
    }
  }

  lemma {:induction false} OrderedSize(s: seq<nat>, ids: set<nat>)
    requires Rising(s) && forall id :: id in s <==> id in ids
    ensures |s| == |ids|
    decreases |s|
  {
    if s == [] {
      assert ids == {};
    } else {
      var init, last := s[..|s| - 1], s[|s| - 1];
      assert s == init + [last];
      OrderedSize(init, ids - {last});
    }
  }

  lemma RecentAreCounted(w: World, user: Address, now: nat)
    requires Reachable(w)
    ensures |Since(w.claims, HistoryOf(w.histories, user), Horizon(now))| == |RecentClaims(w, user, now)|
  {
    ReachableIsSound(w);
    var ids := HistoryOf(w.histories, user);
    assert UserSound(w.claims, w.rules, ids, user, w.time);
    SinceMembers(w.claims, ids, Horizon(now));
    SinceRises(w.claims, ids, Horizon(now));
    OrderedSize(Since(w.claims, ids, Horizon(now)), RecentClaims(w, user, now));
  }

  /** A claim is taken exactly if it is covered, its user is not flagged, the last claim
      is a cooldown ago (one made at time 0 does not count), and there are fewer claims
      than the limit in the last 30 days. */
  lemma ClaimIsTaken(w: World, user: Address, asset: Asset, amount: int, now: nat)
    requires Reachable(w) && w.time <= now && w.counter < U64_MAX && |HistoryOf(w.histories, user)| < U32_MAX
    ensures var next, ids := Next(w, SubmitClaim(user, asset, amount, now)), HistoryOf(w.histories, user);
      && (ids != [] ==> ids[|ids| - 1] in w.claims)
      && (next.Some? <==>
            && !w.config.paused && Covered(w, user, asset, amount, now) && user !in w.flagged
            && |RecentClaims(w, user, now)| < w.config.maxClaims
            && (ids == [] || w.claims[ids[|ids| - 1]].at == 0
                || w.claims[ids[|ids| - 1]].at + w.config.cooldown <= now))
  {
    RecentAreCounted(w, user, now);
    if HistoryOf(w.histories, user) != [] {
      NewestClaim(w, user);
      NewestIsPast(w, user);
    }
  }

  lemma NewestIsPast(w: World, user: Address)
    requires Reachable(w) && HistoryOf(w.histories, user) != []
    ensures var ids := HistoryOf(w.histories, user);
      ids[|ids| - 1] in w.claims && w.claims[ids[|ids| - 1]].at <= w.time
  {
    ReachableIsSound(w);
    var ids := HistoryOf(w.histories, user);
    assert UserSound(w.claims, w.rules, ids, user, w.time);
    assert ids[|ids| - 1] in ids;
  }

  /** It is stored under the next id, as submitted, and ends its user's history. */
  lemma ClaimIsStored(w: World, user: Address, asset: Asset, amount: int, now: nat)
    requires Next(w, SubmitClaim(user, asset, amount, now)).Some?
    ensures var w', id := Next(w, SubmitClaim(user, asset, amount, now)).value, w.counter + 1;
      && OnlyClaim(w, w', id) && w'.counter == id && w'.funds == w.funds && w'.flagged == w.flagged && w'.time == now
      && w'.claims[id] == Claim(user, amount, now, Submitted, 0, 0)
      && forall u :: HistoryOf(w'.histories, u) == HistoryOf(w.histories, u) + if u == user then [id] else []
  {
  }

  /** The administrator decides on open claims: a payout of up to the claim, or none. */
  lemma ReviewDecides(w: World, caller: Address, id: nat, approved: bool, payout: int)
    requires id in w.claims
    ensures var next, c := Next(w, Review(caller, id, approved, payout)), w.claims[id];
      && (next.Some? <==> caller == w.config.admin && (c.status == Submitted || c.status == UnderReview)
                          && (approved ==> 0 < payout <= c.amount))
      && (next.Some? ==>
            && OnlyClaim(w, next.value, id) && next.value == w.(claims := next.value.claims)
            && next.value.claims[id] == c.(status := if approved then Approved else Rejected,
                                           payout := if approved then payout else 0))
  {
  }

  /** An approved claim is paid out of pool and balance, by the administrator. */
  lemma PayoutPays(w: World, caller: Address, id: nat, now: nat)
    requires id in w.claims && w.time <= now
    ensures var next, c := Next(w, Payout(caller, id, now)), w.claims[id];
      && (next.Some? <==> caller == w.config.admin && c.status == Approved
                          && c.payout <= w.funds.pool && c.payout <= w.funds.balance)
      && (next.Some? ==>
            && OnlyClaim(w, next.value, id) && next.value.claims[id] == c.(status := Paid, paidAt := now)
            && next.value.funds == w.funds.(pool := w.funds.pool - c.payout, balance := w.funds.balance - c.payout)
            && next.value == w.(claims := next.value.claims, funds := next.value.funds, time := now))
  {
  }

  // ---- Administration ----

  lemma PoolIsManaged(w: World, c: Call)
    requires c.Add? || c.Withdraw? || c.Emergency?
    ensures Next(w, c).Some? ==> c.caller == w.config.admin && Next(w, c).value == w.(funds := Next(w, c).value.funds)
    ensures Next(w, c).Some? ==>
      var f, f' := w.funds, Next(w, c).value.funds;
      if c.Add? then c.amount > 0 && c.funded && f'.pool == f.pool + c.amount && f'.balance == f.balance + c.amount
      else if c.Withdraw?
      then 0 < c.amount <= f.pool && f'.pool == f.pool - c.amount && f'.balance == f.balance - c.amount
      else if f.pool > 0 then f'.pool == 0 && f'.balance == f.balance - f.pool else f' == f
  {
  }

  lemma FlagsAreSet(w: World, caller: Address, user: Address, on: bool)
    ensures var next := Next(w, Flag(caller, user, on));
      && (next.Some? <==> caller == w.config.admin)
      && (next.Some? ==>
            && next.value == w.(flagged := next.value.flagged)
            && forall u :: u in next.value.flagged <==> if u == user then on else u in w.flagged)
  {
  }
}
