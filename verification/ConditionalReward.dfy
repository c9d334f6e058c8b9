/** The conditional-reward contract: storage updated in place, proved against the
    state machine of RewardRuns. */
module ConditionalReward {
  import opened Host
  import opened Arithmetic
  import opened RewardConditions
  import opened RewardRuns
  import opened RewardLaws

  class ConditionalReward {
    const admin: Address
    var nextId: nat
    var rewards: map<nat, Reward>
    ghost var world: World

    ghost predicate Valid()
      reads this
    {
      Reachable(world) && admin == world.admin && nextId == world.nextId && rewards == world.rewards
    }

    constructor (admin: Address)
      ensures Valid() && world == Start(admin)
    {
      this.admin, nextId, rewards := admin, 1, map[];
      world := Start(admin);
      new;
      StartIsReachable(admin);
    }

    method CreateReward(caller: Address, conditions: seq<Condition>, amount: i128, maxClaims: u32, moved: bool)
        returns (id: Option<nat>)
      requires Valid()
      modifies this
      ensures Valid()
      ensures Commits(old(world), AfterCreate(old(world), caller, conditions, amount, maxClaims, moved), world,
                      id.Some?)
      ensures id.Some? ==> id.value == old(nextId)
    {
      if caller != admin || amount <= 0 || maxClaims == 0 || conditions == [] {
        return None;
      }
      for i := 0 to |conditions|
        invariant forall j :: 0 <= j < i ==> ValidCondition(conditions[j])
        invariant unchanged(this)
      {
        if !ValidCondition(conditions[i]) {
          return None;
        }
      }
      if amount * maxClaims > I128_MAX || !moved || nextId >= U64_MAX {
        return None;
      }
      NextIsReachable(world, Call.Create(caller, conditions, amount, maxClaims, moved));
      world := AfterCreate(world, caller, conditions, amount, maxClaims, moved).value;
      id := Some(nextId);
      rewards := rewards[nextId := Reward(amount, conditions, [], maxClaims, true)];
      nextId := nextId + 1;
    }

    /** The failed list holds, in order, exactly the mandatory conditions that
        failed and all members of groups without a passing one. None stands for a
        missing reward. */
    method CheckEligibility(id: nat, player: Address, a: Answers, now: u64) returns (r: Option<(bool, seq<Failure>)>)
      requires Valid()
      ensures r.Some? <==> id in rewards
      ensures r.Some? ==>
        var conditions := rewards[id].conditions;
        var results := Results(conditions, player, a, now);
        && results.Some? && r.value.0 == Eligible(conditions, results.value)
        && r.value.1 == Failures(conditions, results.value, |conditions|)
        && (r.value.0 <==> r.value.1 == [])
        && (r.value.0 <==> FulfilsAll(conditions, player, a, now))
        && NamesFailures(r.value.1, conditions, player, a, now)
    {
      if id !in rewards {
        return None;
      }
      assert AllValid(rewards[id].conditions) by { ReachableIsSound(world); }
      ValidEvaluates(rewards[id].conditions, player, a, now);
      var results := EvaluateAll(rewards[id].conditions, player, a, now);
      var eligible, failed := EvaluateReward(rewards[id].conditions, results.value);
      EligibleIff(rewards[id].conditions, results.value);
      EligibilityIsFulfilment(rewards[id].conditions, player, a, now);
      r := Some((eligible, failed));
    }

    method Claim(player: Address, id: nat, a: Answers, now: u64, moved: bool) returns (ok: bool)
      requires Valid()
      modifies this
      ensures Valid() && Commits(old(world), AfterClaim(old(world), player, id, a, now, moved), world, ok)
      ensures ok ==> id in rewards && FulfilsAll(rewards[id].conditions, player, a, now)
                     && old(world).net - world.net == rewards[id].amount
    {
      if id !in rewards {
        return false;
      }
      var r := rewards[id];
      if !r.active || player in r.claimants || |r.claimants| >= r.maxClaims {
        return false;
      }
      var check := CheckEligibility(id, player, a, now);
      if !check.value.0 || !moved {
        return false;
      }
      NextIsReachable(world, Call.Claim(player, id, a, now, moved));
      world := AfterClaim(world, player, id, a, now, moved).value;
      rewards := rewards[id := r.(claimants := r.claimants + [player])];
      ok := true;
    }

    method DeactivateReward(caller: Address, id: nat, moved: bool) returns (refund: Option<int>)
      requires Valid()
      modifies this
      ensures Valid() && Commits(old(world), AfterDeactivate(old(world), caller, id, moved), world, refund.Some?)
      ensures refund.Some? ==> refund.value == old(world).net - world.net
    {
      if caller != admin || id !in rewards || !rewards[id].active {
        return None;
      }
      var r := rewards[id];
      var amount := r.amount * Remaining(r);
      if amount > I128_MAX || (amount > 0 && !moved) {
        return None;
      }
      assert amount >= 0 by {
        ReachableIsSound(world);
        MulMonotone(0, Remaining(r), r.amount);
      }
      NextIsReachable(world, Call.Deactivate(caller, id, moved));
      world := AfterDeactivate(world, caller, id, moved).value;
      rewards := rewards[id := r.(active := false)];
      refund := Some(amount);
    }
  }
}
