/** What every run of the insurance contract keeps. */
module InsuranceProofs {
  import opened Host
  import opened Sums
  import opened ClaimHistory
  import opened Arithmetic
  import opened InsuranceRuns
  import Runs

  // ---- Money ----

  /** What was paid for the policies that are still active. */
  ghost function ActivePaid(policies: map<Address, Policy>): map<Address, int> {
    map u | u in policies :: if policies[u].status == Active then policies[u].paid else 0
  }

  ghost function PaidOut(claims: Claims): map<nat, int> {
    map id | id in claims :: if claims[id].status == Paid then claims[id].payout else 0
  }

  lemma ActivePaidUpdate(policies: map<Address, Policy>, u: Address, p: Policy)
    ensures Total(ActivePaid(policies[u := p])) == Total(ActivePaid(policies))
      - (if u in policies && policies[u].status == Active then policies[u].paid else 0)
      + (if p.status == Active then p.paid else 0)
  {
    var v := if p.status == Active then p.paid else 0;
    assert ActivePaid(policies[u := p]) == ActivePaid(policies)[u := v];
    TotalUpdate(ActivePaid(policies), u, v);
  }

  lemma PaidOutUpdate(claims: Claims, id: nat, c: Claim)
    ensures Total(PaidOut(claims[id := c])) == Total(PaidOut(claims))
      - (if id in claims && claims[id].status == Paid then claims[id].payout else 0)
      + (if c.status == Paid then c.payout else 0)
  {
    var v := if c.status == Paid then c.payout else 0;
    assert PaidOut(claims[id := c]) == PaidOut(claims)[id := v];
    TotalUpdate(PaidOut(claims), id, v);
  }

  /** The pool is what came in less what went out, and differs from the
      contract's token balance by what was sent to it directly. */
  ghost predicate PoolSound(f: Funds, paidOut: int) {
    && f.balance == f.pool + f.donated && f.balance >= 0
    && f.pool == f.premiums + f.added - f.refunded - f.withdrawn - paidOut
  }

  ghost predicate PoliciesSound(policies: map<Address, Policy>, now: nat) {
    forall u :: u in policies ==>
      var p := policies[u]; p.amount > 0 && p.paid >= 1 && p.start <= p.end && p.start <= now && p.status != Expired
  }

  /** No more was refunded than was paid for policies that have ended. */
  ghost predicate RefundsSound(f: Funds, policies: map<Address, Policy>) {
    f.refunded + Total(ActivePaid(policies)) <= f.premiums
  }

  ghost predicate ClaimAmountsSound(claims: Claims) {
    forall id :: id in claims ==>
      var c := claims[id];
      && c.amount > 0 && 0 <= c.payout <= c.amount
      && (c.status in {Approved, Paid} <==> c.payout > 0)
  }

  ghost predicate MoneySound(w: World) {
    && PoolSound(w.funds, Total(PaidOut(w.claims)))
    && PoliciesSound(w.policies, w.time) && RefundsSound(w.funds, w.policies) && ClaimAmountsSound(w.claims)
  }

  /** A refund is at most what was paid. */
  lemma RefundIsPart(p: Policy, now: nat)
    requires p.paid >= 0 && Refund(p, now).Some?
    ensures 0 <= Refund(p, now).value <= p.paid
  {
    if p.end > now {
      Share(p.paid, p.end - now, p.end - p.start);
    }
  }

  /** It is the paid amount times the unused part of the whole period, rounded
      down. */
  lemma RefundIsProrated(p: Policy, now: nat)
    requires Refund(p, now).Some? && now < p.end
    ensures var refund := Refund(p, now).value;
      refund * (p.end - p.start) <= p.paid * (p.end - now) < (refund + 1) * (p.end - p.start)
  {
    var x, d := p.paid * (p.end - now), p.end - p.start;
    assert x == x / d * d + x % d;
  }

  lemma Share(paid: nat, rest: nat, whole: nat)
    requires rest <= whole && whole > 0
    ensures 0 <= paid * rest / whole <= paid
  {
    MulMonotone(rest, whole, paid);
    DivMonotone(0, paid * rest, whole);
    DivMonotone(rest * paid, whole * paid, whole);
    DivIs(whole * paid, paid, 0, whole);
  }

  lemma PurchaseKeepsMoney(w: World, w': World, owner: Address, p: Policy)
    requires MoneySound(w) && p.amount > 0 && p.paid >= 1 && p.start <= p.end && p.start <= w'.time && w.time <= w'.time
    requires p.status == Active
    requires w'.claims == w.claims && w'.policies == w.policies[owner := p]
    requires var was := if owner in w.policies && w.policies[owner].status == Active then w.policies[owner].paid else 0;
      p.paid >= was && w'.funds == WithPremium(w.funds, p.paid - was)
    ensures MoneySound(w')
  {
    ActivePaidUpdate(w.policies, owner, p);
  }

  lemma RefundKeepsMoney(w: World, w': World, owner: Address, refund: int)
    requires MoneySound(w) && owner in w.policies && w.policies[owner].status == Active && w.time <= w'.time
    requires 0 <= refund <= w.policies[owner].paid && refund <= w.funds.balance
    requires w'.claims == w.claims && w'.policies == w.policies[owner := w.policies[owner].(status := Cancelled)]
    requires w'.funds == w.funds.(pool := w.funds.pool - refund, balance := w.funds.balance - refund,
                                  refunded := w.funds.refunded + refund)
    ensures MoneySound(w')
  {
    ActivePaidUpdate(w.policies, owner, w.policies[owner].(status := Cancelled));
  }

  lemma CancelKeepsMoney(w: World, owner: Address, now: nat)
    requires MoneySound(w) && AfterCancel(w, owner, now).Some?
    ensures MoneySound(AfterCancel(w, owner, now).value)
  {
    RefundIsPart(w.policies[owner], now);
    RefundKeepsMoney(w, AfterCancel(w, owner, now).value, owner, Refund(w.policies[owner], now).value);
  }

  lemma PayoutKeepsMoney(w: World, caller: Address, id: nat, now: nat)
    requires MoneySound(w) && AfterPayout(w, caller, id, now).Some?
    ensures MoneySound(AfterPayout(w, caller, id, now).value)
  {
    PaidOutUpdate(w.claims, id, w.claims[id].(status := Paid, paidAt := now));
  }

  lemma ReviewKeepsMoney(w: World, caller: Address, id: nat, approved: bool, payout: int)
    requires MoneySound(w) && AfterReview(w, caller, id, approved, payout).Some?
    ensures MoneySound(AfterReview(w, caller, id, approved, payout).value)
  {
    PaidOutUpdate(w.claims, id, AfterReview(w, caller, id, approved, payout).value.claims[id]);
  }

  lemma PurchaseStepKeepsMoney(w: World, owner: Address, coverage: Coverage, amount: int, period: nat, funded: bool,
                               now: nat)
    requires MoneySound(w) && AfterPurchase(w, owner, coverage, amount, period, funded, now).Some?
    ensures MoneySound(AfterPurchase(w, owner, coverage, amount, period, funded, now).value)
  {
    var w' := AfterPurchase(w, owner, coverage, amount, period, funded, now).value;
    PurchaseKeepsMoney(w, w', owner, w'.policies[owner]);
  }

  lemma RenewStepKeepsMoney(w: World, owner: Address, additional: nat, funded: bool, now: nat)
    requires MoneySound(w) && AfterRenew(w, owner, additional, funded, now).Some?
    ensures MoneySound(AfterRenew(w, owner, additional, funded, now).value)
  {
    var w' := AfterRenew(w, owner, additional, funded, now).value;
    PurchaseKeepsMoney(w, w', owner, w'.policies[owner]);
  }

  lemma ClaimKeepsMoney(w: World, user: Address, asset: Asset, amount: int, now: nat)
    requires MoneySound(w) && w.counter + 1 !in w.claims && AfterSubmitClaim(w, user, asset, amount, now).Some?
    ensures MoneySound(AfterSubmitClaim(w, user, asset, amount, now).value)
  {
    PaidOutUpdate(w.claims, w.counter + 1, Claim(user, amount, now, Submitted, 0, 0));
  }

  lemma AdministrationKeepsMoney(w: World, c: Call)
    requires MoneySound(w) && (c.Add? || c.Withdraw? || c.Emergency? || c.Flag? || c.Configure? || c.Donate?)
    ensures MoneySound(Step(w, c))
  {
  }

  lemma StepKeepsMoney(w: World, c: Call)
    requires MoneySound(w) && w.counter + 1 !in w.claims
    ensures MoneySound(Step(w, c))
  {
    if Next(w, c).Some? {
      match c
      case Purchase(owner, coverage, amount, period, funded, now) =>
        PurchaseStepKeepsMoney(w, owner, coverage, amount, period, funded, now);
      case Renew(owner, additional, funded, now) => RenewStepKeepsMoney(w, owner, additional, funded, now);
      case Cancel(owner, now) => CancelKeepsMoney(w, owner, now);
      case SubmitClaim(user, asset, amount, now) => ClaimKeepsMoney(w, user, asset, amount, now);
      case Review(caller, id, approved, payout) => ReviewKeepsMoney(w, caller, id, approved, payout);
      case Payout(caller, id, now) => PayoutKeepsMoney(w, caller, id, now);
      case _ => AdministrationKeepsMoney(w, c);
    }
  }

  // ---- Claims ----

  ghost predicate UsersSound(claims: Claims, rules: Rules, histories: map<Address, seq<nat>>, now: nat) {
    forall u {:trigger UserSound(claims, rules, HistoryOf(histories, u), u, now)} ::
      UserSound(claims, rules, HistoryOf(histories, u), u, now)
  }

  ghost predicate Listed(claims: Claims, histories: map<Address, seq<nat>>) {
    forall id :: id in claims ==> id in HistoryOf(histories, claims[id].owner)
  }

  ghost predicate Numbered(claims: Claims, rules: Rules, counter: nat) {
    (forall id: nat :: id in claims <==> 1 <= id <= counter) && rules.Keys == claims.Keys
  }

  ghost predicate ClaimsSound(w: World) {
    && Numbered(w.claims, w.rules, w.counter) && Listed(w.claims, w.histories)
    && UsersSound(w.claims, w.rules, w.histories, w.time)
  }

  /** Nothing but claims submitted changes owners, times or histories. */
  lemma SameClaimsSound(w: World, w': World)
    requires ClaimsSound(w) && w'.histories == w.histories && w'.counter == w.counter
    requires w'.claims.Keys == w.claims.Keys
    requires forall id :: id in w.claims ==>
      w'.claims[id].owner == w.claims[id].owner && w'.claims[id].at == w.claims[id].at
    requires w.time <= w'.time && w'.rules == w.rules
    ensures ClaimsSound(w')
  {
    forall u ensures UserSound(w'.claims, w'.rules, HistoryOf(w'.histories, u), u, w'.time) {
      assert UserSound(w.claims, w.rules, HistoryOf(w.histories, u), u, w.time);
      UserAgrees(w.claims, w'.claims, w.rules, w'.rules, HistoryOf(w.histories, u), u, w.time, w'.time);
    }
  }

  lemma IdsBelow(w: World, u: Address)
    requires ClaimsSound(w)
    ensures forall k :: k in HistoryOf(w.histories, u) ==> k in w.claims && k < w.counter + 1
  {
    assert UserSound(w.claims, w.rules, HistoryOf(w.histories, u), u, w.time);
  }

  lemma SubmitKeepsClaimant(w: World, c: Claim)
    requires ClaimsSound(w) && c.at >= w.time && MayClaim(w, c.owner, c.at)
    ensures var ids, id, rule := HistoryOf(w.histories, c.owner), w.counter + 1,
                                  Rule(w.config.maxClaims, w.config.cooldown);
      UserSound(w.claims[id := c], w.rules[id := rule], ids + [id], c.owner, c.at)
  {
    var ids, id, rule := HistoryOf(w.histories, c.owner), w.counter + 1, Rule(w.config.maxClaims, w.config.cooldown);
    IdsBelow(w, c.owner);
    assert id !in w.claims;
    UserAppends(w.claims, w.rules, ids, c.owner, w.time, id, c, rule);
  }

  lemma SubmitKeepsOthers(w: World, c: Claim, rule: Rule, u: Address)
    requires ClaimsSound(w) && c.at >= w.time
    ensures var id := w.counter + 1;
      UserSound(w.claims[id := c], w.rules[id := rule], HistoryOf(w.histories, u), u, c.at)
  {
    IdsBelow(w, u);
    assert UserSound(w.claims, w.rules, HistoryOf(w.histories, u), u, w.time);
    AnotherClaimLeaves(w.claims, w.rules, HistoryOf(w.histories, u), u, w.time, w.counter + 1, c, rule);
  }

  lemma AnotherClaimLeaves(claims: Claims, rules: Rules, ids: seq<nat>, u: Address, now: nat, id: nat, c: Claim,
                           rule: Rule)
    requires UserSound(claims, rules, ids, u, now) && now <= c.at && id !in ids
    ensures UserSound(claims[id := c], rules[id := rule], ids, u, c.at)
  {
    assert Agree(claims, claims[id := c], ids);
    UserAgrees(claims, claims[id := c], rules, rules[id := rule], ids, u, now, c.at);
  }

  lemma SubmitKeepsUsers(w: World, c: Claim)
    requires ClaimsSound(w) && c.at >= w.time && MayClaim(w, c.owner, c.at)
    ensures var id, rule := w.counter + 1, Rule(w.config.maxClaims, w.config.cooldown);
      UsersSound(w.claims[id := c], w.rules[id := rule],
                 w.histories[c.owner := HistoryOf(w.histories, c.owner) + [id]], c.at)
  {
    var id, rule := w.counter + 1, Rule(w.config.maxClaims, w.config.cooldown);
    var claims, rules := w.claims[id := c], w.rules[id := rule];
    var histories := w.histories[c.owner := HistoryOf(w.histories, c.owner) + [id]];
    forall u ensures UserSound(claims, rules, HistoryOf(histories, u), u, c.at) {
      if u == c.owner {
        assert HistoryOf(histories, u) == HistoryOf(w.histories, u) + [id];
        SubmitKeepsClaimant(w, c);
      } else {
        assert HistoryOf(histories, u) == HistoryOf(w.histories, u);
        SubmitKeepsOthers(w, c, rule, u);
      }
    }
  }

  lemma SubmitKeepsListed(claims: Claims, histories: map<Address, seq<nat>>, id: nat, c: Claim)
    requires Listed(claims, histories) && id !in claims
    ensures Listed(claims[id := c], histories[c.owner := HistoryOf(histories, c.owner) + [id]])
  {
    var claims', histories' := claims[id := c], histories[c.owner := HistoryOf(histories, c.owner) + [id]];
    forall k | k in claims' ensures k in HistoryOf(histories', claims'[k].owner) {
      if k != id {
        assert k in HistoryOf(histories, claims[k].owner);
      }
    }
  }

  lemma SubmitKeepsNumbered(claims: Claims, rules: Rules, counter: nat, c: Claim, rule: Rule)
    requires Numbered(claims, rules, counter)
    ensures Numbered(claims[counter + 1 := c], rules[counter + 1 := rule], counter + 1)
  {
  }

  lemma SubmitKeepsClaims(w: World, c: Claim)
    requires ClaimsSound(w) && c.at >= w.time && MayClaim(w, c.owner, c.at)
    ensures ClaimsSound(WithClaim(w, c))
  {
    var id, rule := w.counter + 1, Rule(w.config.maxClaims, w.config.cooldown);
    var histories := w.histories[c.owner := HistoryOf(w.histories, c.owner) + [id]];
    assert UsersSound(w.claims[id := c], w.rules[id := rule], histories, c.at) by { SubmitKeepsUsers(w, c); }
    SubmitKeepsListed(w.claims, w.histories, w.counter + 1, c);
    SubmitKeepsNumbered(w.claims, w.rules, w.counter, c, rule);
  }

  lemma SubmitStepKeepsClaims(w: World, user: Address, asset: Asset, amount: int, now: nat)
    requires ClaimsSound(w) && AfterSubmitClaim(w, user, asset, amount, now).Some?
    ensures ClaimsSound(AfterSubmitClaim(w, user, asset, amount, now).value)
  {
    SubmitKeepsClaims(w, Claim(user, amount, now, Submitted, 0, 0));
  }

  /** No other call touches who claimed what and when. */
  lemma OtherStepsKeepRecords(w: World, c: Call)
    requires !c.SubmitClaim? && Next(w, c).Some?
    ensures var w' := Next(w, c).value;
      && w'.histories == w.histories && w'.counter == w.counter && w'.claims.Keys == w.claims.Keys
      && (forall id :: id in w.claims ==>
            w'.claims[id].owner == w.claims[id].owner && w'.claims[id].at == w.claims[id].at)
      && w.time <= w'.time && w'.rules == w.rules
  {
  }

  lemma StepKeepsClaims(w: World, c: Call)
    requires ClaimsSound(w)
    ensures ClaimsSound(Step(w, c))
  {
    if Next(w, c).Some? {
      if c.SubmitClaim? {
        SubmitStepKeepsClaims(w, c.user, c.asset, c.amount, c.now);
      } else {
        OtherStepsKeepRecords(w, c);
        SameClaimsSound(w, Next(w, c).value);
      }
    }
  }

  ghost predicate Sound(w: World) {
    MoneySound(w) && ClaimsSound(w)
  }

  lemma StepKeepsSound(w: World, c: Call)
    requires Sound(w)
    ensures Sound(Step(w, c))
  {
    StepKeepsMoney(w, c);
    StepKeepsClaims(w, c);
  }

  lemma StartIsSound(admin: Address, baseRate: nat)
    ensures Sound(Start(admin, baseRate))
  {
    assert MoneySound(Start(admin, baseRate)) by {
      assert PaidOut(map[]) == map[] && ActivePaid(map[]) == map[];
    }
    assert UsersSound(map[], map[], map[], 0) by {
      forall u: Address ensures UserSound(map[], map[], [], u, 0) {}
    }
  }

  lemma ReachableIsSound(w: World)
    requires Reachable(w)
    ensures Sound(w)
  {
    var admin, baseRate: nat :| Runs.ReachableFrom(Step, Start(admin, baseRate), w);
    StartIsSound(admin, baseRate);
    forall v, c | Sound(v) ensures Sound(Step(v, c)) {
      StepKeepsSound(v, c);
    }
    Runs.ReachableKeeps(Step, Sound, Start(admin, baseRate), w);
  }

  // ---- For every run ----

  ghost function ClaimsIn(claims: Claims, user: Address, from: nat, to: nat): set<nat> {
    set id | id in claims && claims[id].owner == user && from <= claims[id].at <= to
  }

  /** However the limit changes, a user's claims in any closed 30-day interval are
      at most as many as the limit in force at the last of them. */
  lemma ClaimsPerWindowAreLimited(w: World, user: Address, from: nat, last: nat)
    requires Reachable(w)
    requires var s := ClaimsIn(w.claims, user, from, from + 30 * 86_400);
      last in s && forall id :: id in s ==> id <= last
    ensures last in w.rules && |ClaimsIn(w.claims, user, from, from + 30 * 86_400)| <= w.rules[last].limit
  {
    ReachableIsSound(w);
    assert forall id :: id in w.claims && w.claims[id].owner == user ==> id in HistoryOf(w.histories, user);
    HistoryIsLimited(w.claims, w.rules, HistoryOf(w.histories, user), user, w.time, from, last);
  }

  lemma HistoryIsLimited(claims: Claims, rules: Rules, ids: seq<nat>, user: Address, now: nat, from: nat, last: nat)
    requires UserSound(claims, rules, ids, user, now)
    requires forall id :: id in claims && claims[id].owner == user ==> id in ids
    requires var s := ClaimsIn(claims, user, from, from + LOOKBACK); last in s && forall id :: id in s ==> id <= last
    ensures last in rules && |ClaimsIn(claims, user, from, from + LOOKBACK)| <= rules[last].limit
  {
    var s := Within(claims, ids, from, from + LOOKBACK);
    WithinMembers(claims, ids, from, from + LOOKBACK);
    assert forall id :: id in s <==> id in ClaimsIn(claims, user, from, from + LOOKBACK);
    WindowIsLimited(claims, rules, ids, from, last);
    SeqBoundsSet(s, ClaimsIn(claims, user, from, from + LOOKBACK));
  }

  /** A claim comes after every earlier one of the same user by at least the
      cooldown in force when it is made, unless the earlier one was made at time 0,
      which the check takes for no claim. */
  lemma ClaimsAreSpaced(w: World, earlier: nat, later: nat)
    requires Reachable(w) && earlier in w.claims && later in w.claims && earlier < later
    requires w.claims[earlier].owner == w.claims[later].owner
    ensures later in w.rules
    ensures w.claims[earlier].at > 0 ==> w.claims[later].at >= w.claims[earlier].at + w.rules[later].cooldown
  {
    ReachableIsSound(w);
    HistoryIsSpaced(w.claims, w.rules, HistoryOf(w.histories, w.claims[earlier].owner), w.claims[earlier].owner, w.time,
                    earlier, later);
  }

  lemma HistoryIsSpaced(claims: Claims, rules: Rules, ids: seq<nat>, user: Address, now: nat, earlier: nat, later: nat)
    requires UserSound(claims, rules, ids, user, now) && earlier in ids && later in ids && earlier < later
    ensures claims[earlier].at > 0 ==> claims[later].at >= claims[earlier].at + rules[later].cooldown
  {
    var i: nat :| i < |ids| && ids[i] == earlier;
    var j: nat :| j < |ids| && ids[j] == later;
    assert i < j;
    assert claims[ids[i]].at <= claims[ids[j - 1]].at;
    assert ids[j - 1 + 1] == later;
  }

  /** What each claim found stays on record. */
  lemma RulesAreRecorded(w: World, c: Call)
    requires Reachable(w)
    ensures w.rules.Keys == w.claims.Keys
    ensures Step(w, c).rules == if c.SubmitClaim? && Next(w, c).Some?
                                then w.rules[w.counter + 1 := Rule(w.config.maxClaims, w.config.cooldown)]
                                else w.rules
  {
    assert w.rules.Keys == w.claims.Keys by { ReachableIsSound(w); }
    if !c.SubmitClaim? && Next(w, c).Some? {
      OtherStepsKeepRecords(w, c);
    }
  }

  /** A claim that comes too soon after the last one, and that nothing else speaks
      against, is accepted if and only if the last one was made at time 0: the
      cooldown is skipped exactly then. */
  lemma CooldownIsSkippedIff(w: World, user: Address, asset: Asset, amount: int, now: nat)
    requires Reachable(w) && now >= w.time && !w.config.paused && w.counter < U64_MAX
    requires user in w.policies && Covers(w.policies[user], asset, amount, now) && user !in w.flagged
    requires var ids := HistoryOf(w.histories, user);
      && 0 < |ids| < U32_MAX && |Since(w.claims, ids, Horizon(now))| < w.config.maxClaims
      && now - LastTime(w.claims, ids) < w.config.cooldown
    ensures var ids := HistoryOf(w.histories, user);
      && ids[|ids| - 1] in w.claims
      && (AfterSubmitClaim(w, user, asset, amount, now).Some? <==> w.claims[ids[|ids| - 1]].at == 0)
  {
    NewestClaim(w, user);
  }

  lemma NewestClaim(w: World, user: Address)
    requires Reachable(w) && HistoryOf(w.histories, user) != []
    ensures var ids := HistoryOf(w.histories, user); ids[|ids| - 1] in w.claims
  {
    ReachableIsSound(w);
    var ids := HistoryOf(w.histories, user);
    assert UserSound(w.claims, w.rules, ids, user, w.time);
    assert ids[|ids| - 1] in ids;
  }

  /** The premium pool is all premiums and additions less refunds, withdrawals and
      the payouts of exactly the paid claims. */
  lemma PoolIsAccounted(w: World)
    requires Reachable(w)
    ensures var f := w.funds;
      f.pool == f.premiums + f.added - f.refunded - f.withdrawn - Total(PaidOut(w.claims))
    ensures w.funds.balance == w.funds.pool + w.funds.donated
    ensures w.funds.pool + w.funds.donated >= 0
  {
    ReachableIsSound(w);
  }

  /** Refunds never exceed what was paid for ended policies, and no payout
      exceeds its claim. */
  lemma RefundsAndPayoutsAreCovered(w: World)
    requires Reachable(w)
    ensures w.funds.refunded + Total(ActivePaid(w.policies)) <= w.funds.premiums
    ensures forall id :: id in w.claims ==> 0 <= w.claims[id].payout <= w.claims[id].amount
  {
    ReachableIsSound(w);
  }

  /** From a pool that is not negative exactly one kind of call leads to a negative
      one: an owner's cancellation, in time, whose refund is larger than the pool
      and for which tokens sent to the contract directly make up. */
  lemma NegativePoolIff(w: World, c: Call)
    requires Reachable(w) && w.funds.pool >= 0
    ensures Step(w, c).funds.pool < 0 <==>
      c.Cancel? && c.now >= w.time && c.owner in w.policies && w.policies[c.owner].status == Active
      && var refund := Refund(w.policies[c.owner], c.now);
         refund.Some? && w.funds.pool < refund.value <= w.funds.pool + w.funds.donated
  {
    ReachableIsSound(w);
    if c.Cancel? {
      CancelMakesNegative(w, c.owner, c.now);
    } else {
      OtherCallsKeepPool(w, c);
    }
  }

  lemma CancelMakesNegative(w: World, owner: Address, now: nat)
    requires MoneySound(w) && w.funds.pool >= 0
    ensures var after := AfterCancel(w, owner, now);
      after.Some? && after.value.funds.pool < 0 <==>
      now >= w.time && owner in w.policies && w.policies[owner].status == Active
      && var refund := Refund(w.policies[owner], now);
         refund.Some? && w.funds.pool < refund.value <= w.funds.pool + w.funds.donated
  {
    if owner in w.policies && Refund(w.policies[owner], now).Some? {
      RefundIsPart(w.policies[owner], now);
    }
  }

  lemma OtherCallsKeepPool(w: World, c: Call)
    requires !c.Cancel? && w.funds.pool >= 0
    ensures Step(w, c).funds.pool >= 0
  {
  }

  /** No policy ever expires: however much time passes, its status is Active until
      its owner cancels it, and Cancelled until its owner buys the next one. */
  lemma PoliciesNeverExpire(w: World, c: Call, u: Address)
    requires Reachable(w) && u in w.policies
    ensures w.policies[u].status in {Active, Cancelled} && u in Step(w, c).policies
    ensures Step(w, c).policies[u].status == StatusAfter(w, c, u)
  {
    assert w.policies[u].status != Expired by { ReachableIsSound(w); }
    if c.Purchase? {
      PurchaseActivates(w, c, u);
    } else if c.Renew? {
      RenewKeepsStatus(w, c, u);
    } else if c.Cancel? {
      CancelCancels(w, c, u);
    } else {
      OtherCallsKeepPolicies(w, c);
    }
  }

  function StatusAfter(w: World, c: Call, u: Address): PolicyStatus
    requires u in w.policies
  {
    if c.Cancel? && c.owner == u && Next(w, c).Some? then Cancelled
    else if c.Purchase? && c.owner == u && Next(w, c).Some? then Active
    else w.policies[u].status
  }

  lemma PurchaseActivates(w: World, c: Call, u: Address)
    requires c.Purchase? && u in w.policies
    ensures u in Step(w, c).policies && Step(w, c).policies[u].status == StatusAfter(w, c, u)
  {
  }

  lemma RenewKeepsStatus(w: World, c: Call, u: Address)
    requires c.Renew? && u in w.policies && w.policies[u].status != Expired
    ensures u in Step(w, c).policies && Step(w, c).policies[u].status == StatusAfter(w, c, u)
  {
  }

  lemma CancelCancels(w: World, c: Call, u: Address)
    requires c.Cancel? && u in w.policies
    ensures u in Step(w, c).policies && Step(w, c).policies[u].status == StatusAfter(w, c, u)
  {
  }

  lemma OtherCallsKeepPolicies(w: World, c: Call)
    requires !c.Purchase? && !c.Renew? && !c.Cancel?
    ensures Step(w, c).policies == w.policies
  {
  }

  /** Paid and rejected claims are final. */
  lemma SettledClaimsStay(w: World, c: Call, id: nat)
    requires Reachable(w) && id in w.claims && w.claims[id].status in {Paid, Rejected}
    ensures id in Step(w, c).claims && Step(w, c).claims[id] == w.claims[id]
  {
    assert w.counter + 1 !in w.claims by { ReachableIsSound(w); }
    if !c.SubmitClaim? && !c.Review? && !c.Payout? {
      OtherCallsKeepClaims(w, c);
    }
  }

  lemma OtherCallsKeepClaims(w: World, c: Call)
    requires !c.SubmitClaim? && !c.Review? && !c.Payout?
    ensures Step(w, c).claims == w.claims
  {
  }
}
