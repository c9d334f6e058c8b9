/** Funded rewards as a state machine: what the contract's own calls moved into it
    always covers exactly the claims still open. */
module RewardRuns {
  import opened Host
  import opened Arithmetic
  import opened Sequences
  import opened Sums
  import opened RewardConditions
  import Runs

  datatype Reward = Reward(amount: int, conditions: seq<Condition>, claimants: seq<Address>, maxClaims: nat,
                           active: bool)

  datatype World = World(
    admin: Address, nextId: nat, rewards: map<nat, Reward>,
    net: int)   // reward tokens moved in less tokens moved out by the contract's calls

  function Start(admin: Address): World {
    World(admin, 1, map[], 0)
  }

  function Remaining(r: Reward): nat {
    if |r.claimants| > r.maxClaims then 0 else r.maxClaims - |r.claimants|
  }

  /** `moved` says whether the token contract carried the transfer out. */
  function AfterCreate(w: World, caller: Address, conditions: seq<Condition>, amount: int, maxClaims: nat,
                       moved: bool): Option<World> {
    if caller != w.admin || amount <= 0 || maxClaims == 0 || conditions == [] || !AllValid(conditions)
       || amount * maxClaims > I128_MAX || !moved || w.nextId >= U64_MAX then None
    else Some(w.(rewards := w.rewards[w.nextId := Reward(amount, conditions, [], maxClaims, true)],
                 nextId := w.nextId + 1, net := w.net + amount * maxClaims))
  }

  ghost predicate MayClaim(r: Reward, player: Address, a: Answers, now: nat) {
    && r.active && player !in r.claimants && |r.claimants| < r.maxClaims
    && var results := Results(r.conditions, player, a, now);
       results.Some? && Eligible(r.conditions, results.value)
  }

  ghost function AfterClaim(w: World, player: Address, id: nat, a: Answers, now: nat, moved: bool): Option<World> {
    if id !in w.rewards || !MayClaim(w.rewards[id], player, a, now) || !moved then None
    else
      var r := w.rewards[id];
      Some(w.(rewards := w.rewards[id := r.(claimants := r.claimants + [player])], net := w.net - r.amount))
  }

  function AfterDeactivate(w: World, caller: Address, id: nat, moved: bool): Option<World> {
    if caller != w.admin || id !in w.rewards || !w.rewards[id].active then None
    else
      var r := w.rewards[id];
      var refund := r.amount * Remaining(r);
      if refund > I128_MAX || (refund > 0 && !moved) then None
      else Some(w.(rewards := w.rewards[id := r.(active := false)],
                   net := if refund > 0 then w.net - refund else w.net))
  }

  datatype Call =
    | Create(caller: Address, conditions: seq<Condition>, amount: int, maxClaims: nat, moved: bool)
    | Claim(player: Address, id: nat, answers: Answers, now: nat, moved: bool)
    | Deactivate(caller: Address, id: nat, moved: bool)

  ghost function Next(w: World, c: Call): Option<World> {
    match c
    case Create(caller, conditions, amount, maxClaims, moved) =>
      AfterCreate(w, caller, conditions, amount, maxClaims, moved)
    case Claim(player, id, answers, now, moved) => AfterClaim(w, player, id, answers, now, moved)
    case Deactivate(caller, id, moved) => AfterDeactivate(w, caller, id, moved)
  }

  ghost function Step(w: World, c: Call): World {
    match Next(w, c) case Some(w') => w' case None => w
  }

  ghost predicate Reachable(w: World) {
    exists admin :: Runs.ReachableFrom(Step, Start(admin), w)
  }

  lemma NextIsReachable(w: World, c: Call)
    requires Reachable(w) && Next(w, c).Some?
    ensures Reachable(Next(w, c).value)
  {
    var admin :| Runs.ReachableFrom(Step, Start(admin), w);
    Runs.ReachableNext(Step, Start(admin), w, c);
  }

  lemma StartIsReachable(admin: Address)
    ensures Reachable(Start(admin))
  {
    Runs.ReachableNow(Step, Start(admin));
  }

  // ---- The invariant ----

  ghost predicate RewardSound(r: Reward) {
    && r.amount > 0 && AllValid(r.conditions) && r.conditions != []
    && Distinct(r.claimants) && |r.claimants| <= r.maxClaims
    && r.amount * r.maxClaims <= I128_MAX
  }

  /** What a reward may still have to pay out. */
  function Liability(r: Reward): int {
    if r.active then r.amount * (r.maxClaims - |r.claimants|) else 0
  }

  ghost function Liabilities(rewards: map<nat, Reward>): map<nat, int> {
    map id | id in rewards :: Liability(rewards[id])
  }

  ghost predicate Sound(w: World) {
    && (forall id :: id in w.rewards ==> id < w.nextId && RewardSound(w.rewards[id]))
    && w.net == Total(Liabilities(w.rewards))
  }

  lemma LiabilityUpdate(rewards: map<nat, Reward>, id: nat, r: Reward)
    ensures Total(Liabilities(rewards[id := r]))
         == Total(Liabilities(rewards)) - (if id in rewards then Liability(rewards[id]) else 0) + Liability(r)
  {
    assert Liabilities(rewards[id := r]) == Liabilities(rewards)[id := Liability(r)];
    TotalUpdate(Liabilities(rewards), id, Liability(r));
  }

  lemma MulDistributes(a: int, n: int)
    ensures a * (n - 1) == a * n - a
  {
  }

  lemma ClaimKeepsSound(w: World, player: Address, id: nat, a: Answers, now: nat, moved: bool)
    requires Sound(w) && AfterClaim(w, player, id, a, now, moved).Some?
    ensures Sound(AfterClaim(w, player, id, a, now, moved).value)
  {
    var r := w.rewards[id];
    LiabilityUpdate(w.rewards, id, r.(claimants := r.claimants + [player]));
    MulDistributes(r.amount, r.maxClaims - |r.claimants|);
  }

  lemma DeactivateKeepsSound(w: World, caller: Address, id: nat, moved: bool)
    requires Sound(w) && AfterDeactivate(w, caller, id, moved).Some?
    ensures Sound(AfterDeactivate(w, caller, id, moved).value)
  {
    var r := w.rewards[id];
    LiabilityUpdate(w.rewards, id, r.(active := false));
    MulMonotone(0, Remaining(r), r.amount);
  }

  lemma StepKeepsSound(w: World, c: Call)
    requires Sound(w)
    ensures Sound(Step(w, c))
  {
    if Next(w, c).Some? {
      match c
      case Create(caller, conditions, amount, maxClaims, moved) =>
        LiabilityUpdate(w.rewards, w.nextId, Reward(amount, conditions, [], maxClaims, true));
      case Claim(player, id, answers, now, moved) =>
        ClaimKeepsSound(w, player, id, answers, now, moved);
      case Deactivate(caller, id, moved) =>
        DeactivateKeepsSound(w, caller, id, moved);
    }
  }

  lemma StartIsSound(admin: Address)
    ensures Sound(Start(admin))
  {
    assert Liabilities(map[]) == map[];
  }

  lemma ReachableIsSound(w: World)
    requires Reachable(w)
    ensures Sound(w)
  {
    var admin :| Runs.ReachableFrom(Step, Start(admin), w);
    StartIsSound(admin);
    forall v, c | Sound(v) ensures Sound(Step(v, c)) {
      StepKeepsSound(v, c);
    }
    Runs.ReachableKeeps(Step, Sound, Start(admin), w);
  }

  // ---- For every run ----

  /** The tokens the contract's own calls moved in are exactly what all active
      rewards can still pay out. */
  lemma FundingIsExact(w: World)
    requires Reachable(w)
    ensures w.net == Total(Liabilities(w.rewards))
  {
    ReachableIsSound(w);
  }

  lemma LiabilitiesCover(rewards: map<nat, Reward>, id: nat)
    requires id in rewards && forall k :: k in rewards ==> RewardSound(rewards[k])
    ensures 0 <= Liability(rewards[id]) <= Total(Liabilities(rewards))
  {
    forall k | k in rewards ensures Liability(rewards[k]) >= 0 {
      if rewards[k].active {
        MulMonotone(0, rewards[k].maxClaims - |rewards[k].claimants|, rewards[k].amount);
      }
    }
    TotalSplit(Liabilities(rewards), id);
    TotalNonNegative(Liabilities(rewards) - {id});
  }

  /** Every open claim and every refund is covered by what was moved in, and
      neither the funding nor a refund overflows. */
  lemma OpenClaimsAreFunded(w: World, id: nat)
    requires Reachable(w) && id in w.rewards && w.rewards[id].active
    ensures var r := w.rewards[id];
      && r.amount * Remaining(r) <= w.net && r.amount * Remaining(r) <= I128_MAX
      && (|r.claimants| < r.maxClaims ==> r.amount <= w.net)
  {
    ReachableIsSound(w);
    var r := w.rewards[id];
    LiabilitiesCover(w.rewards, id);
    MulMonotone(Remaining(r), r.maxClaims, r.amount);
    if |r.claimants| < r.maxClaims {
      MulMonotone(1, Remaining(r), r.amount);
    }
  }

  /** Nobody claims a reward twice and no reward is claimed more often than its
      cap. */
  lemma ClaimantsAreDistinct(w: World, id: nat)
    requires Reachable(w) && id in w.rewards
    ensures |w.rewards[id].claimants| <= w.rewards[id].maxClaims && Distinct(w.rewards[id].claimants)
  {
    ReachableIsSound(w);
  }

  /** On a stored reward evaluation never panics: an active reward with places
      left is claimed exactly by whoever is eligible and has not claimed yet. */
  lemma ClaimSucceedsIff(w: World, player: Address, id: nat, a: Answers, now: nat)
    requires Reachable(w) && id in w.rewards
    ensures var r := w.rewards[id];
      var results := Results(r.conditions, player, a, now);
      && results.Some?
      && (AfterClaim(w, player, id, a, now, true).Some? <==>
            r.active && |r.claimants| < r.maxClaims && player !in r.claimants &&
            Failures(r.conditions, results.value, |r.conditions|) == [])
  {
    ReachableIsSound(w);
    var r := w.rewards[id];
    ValidEvaluates(r.conditions, player, a, now);
    EligibleIff(r.conditions, Results(r.conditions, player, a, now).value);
  }
}
