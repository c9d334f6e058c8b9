/** Runs in which the insurance contract departs from its documentation. */
module InsuranceExamples {
  import opened Host
  import opened ClaimHistory
  import opened InsuranceRuns

  const WEEK := 7 * DAY

  /** A week's policy bought for the minimal premium as the ledger starts. */
  lemma Insures(admin: Address, user: Address) returns (w: World)
    ensures Reachable(w) && w == Start(admin, 0).(
      policies := map[user := Policy(NftOnly, 1000, 1, 0, WEEK, Active)], funds := Funds(1, 1, 0, 1, 0, 0, 0))
  {
    StartIsReachable(admin, 0);
    var c := Purchase(user, NftOnly, 1000, WEEK, true, 0);
    assert Premium(Start(admin, 0).config, NftOnly, 1000, WEEK) == Some(1);
    NextIsReachable(Start(admin, 0), c);
    w := Next(Start(admin, 0), c).value;
  }

  /** An insured user has made `n` claims at time 0, each under a week's cooldown. */
  ghost predicate ClaimedAtZero(w: World, user: Address, n: nat) {
    && Reachable(w) && w.time == 0 && !w.config.paused && w.config.maxClaims == 3 && w.config.cooldown == WEEK
    && user in w.policies && w.policies[user] == Policy(NftOnly, 1000, 1, 0, WEEK, Active) && user !in w.flagged
    && w.counter == n == |HistoryOf(w.histories, user)| && LastTime(w.claims, HistoryOf(w.histories, user)) == 0
    && forall id: nat :: 1 <= id <= n ==>
         && id in w.claims && w.claims[id].owner == user && w.claims[id].at == 0
         && id in w.rules && w.rules[id].cooldown == WEEK
  }

  lemma MakesClaim(w: World, user: Address, n: nat) returns (w': World)
    requires ClaimedAtZero(w, user, n) && n <= 1
    ensures ClaimedAtZero(w', user, n + 1)
  {
    SinceIsPart(w.claims, HistoryOf(w.histories, user), Horizon(0));
    NextIsReachable(w, SubmitClaim(user, Nft, 1, 0));
    w' := Next(w, SubmitClaim(user, Nft, 1, 0)).value;
  }

  lemma {:induction false} SinceIsPart(claims: Claims, ids: seq<nat>, from: nat)
    ensures |Since(claims, ids, from)| <= |ids|
    decreases |ids|
  {
    if ids != [] { SinceIsPart(claims, ids[..|ids| - 1], from); }
  }

  /** Under a cooldown of a week a user makes two claims at time 0. */
  lemma TwoClaimsAtTimeZero(admin: Address, user: Address)
    ensures exists w :: ClaimedAtZero(w, user, 2)
  {
    var w := Insures(admin, user);
    w := MakesClaim(w, user, 0);
    w := MakesClaim(w, user, 1);
  }

  lemma Empties(w: World) returns (w': World)
    requires Reachable(w) && w.funds.pool == 1 && w.funds.balance == 1
    ensures Reachable(w') && w'.policies == w.policies && w'.time == w.time && w'.config == w.config
    ensures w'.funds == w.funds.(pool := 0, balance := 0, withdrawn := w.funds.withdrawn + 1)
  {
    NextIsReachable(w, Withdraw(w.config.admin, 1));
    w' := AfterWithdraw(w, w.config.admin, 1).value;
  }

  lemma Receives(w: World) returns (w': World)
    requires Reachable(w)
    ensures Reachable(w') && w'.policies == w.policies && w'.time == w.time && w'.config == w.config
    ensures w'.funds == w.funds.(balance := w.funds.balance + 1, donated := w.funds.donated + 1)
  {
    NextIsReachable(w, Donate(1));
    w' := AfterDonate(w, 1).value;
  }

  lemma Cancels(w: World, user: Address) returns (w': World)
    requires Reachable(w) && w.time == 0 && w.funds.pool == 0 && w.funds.balance == 1
    requires user in w.policies && w.policies[user] == Policy(NftOnly, 1000, 1, 0, WEEK, Active)
    ensures Reachable(w') && w'.funds.pool == -1
  {
    assert Refund(w.policies[user], 0) == Some(1);
    NextIsReachable(w, Cancel(user, 0));
    w' := AfterCancel(w, user, 0).value;
  }

  /** The administrator empties the pool, somebody sends the contract one token
      directly, and a cancellation refunds it: the pool is -1. */
  lemma PoolGoesNegative(admin: Address, user: Address)
    ensures exists w :: Reachable(w) && w.funds.pool == -1
  {
    var w := Insures(admin, user);
    w := Empties(w);
    w := Receives(w);
    w := Cancels(w, user);
  }
}
