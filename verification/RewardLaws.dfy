/** What a conditional reward asks of a player, in the answers of the other contracts,
    and what each accepted call does. */
module RewardLaws {
  import opened Host
  import opened RewardConditions
  import opened RewardRuns

  /** The player owns the token, has solved enough, has been registered long enough, or
      has access at the tier asked for. A failed call and a missing record count as no;
      86400 seconds make a day, and the product stops at 2^64 - 1. */
  ghost predicate Met(c: Condition, player: Address, a: Answers, now: nat) {
    && c.params.contract.Some?
    && var p, contract := c.params, c.params.contract.value;
       && (c.kind == NftHeld ==> p.tokenId.Some? && a.ownerOf(contract, p.tokenId.value) == Some(player))
       && (c.kind == SolveCountGte ==>
             p.min.Some? && var activity := if p.activity == None then 0 else p.activity.value;
                            var count := a.activityCount(contract, player, activity);
                            count.Some? && p.min.value <= count.value)
       && (c.kind == RegistrationAgeGte ==>
             p.days.Some? && var since := a.registeredAt(contract, player);
                             since.Some? && (p.days.value == 0
                                             || (since.value + 86400 * p.days.value <= now
                                                 && 86400 * p.days.value <= U64_MAX)
                                             || since.value + U64_MAX <= now))
       && (c.kind == TierGte ==>
             || (p.tier == Some(0) && a.hasAccess(contract, player, Free) == Some(true))
             || (p.tier == Some(1) && a.hasAccess(contract, player, Pro) == Some(true))
             || (p.tier == Some(2) && a.hasAccess(contract, player, Elite) == Some(true)))
  }

  lemma EvaluatesToMet(c: Condition, player: Address, a: Answers, now: nat)
    requires ValidCondition(c)
    ensures Evaluate(c, player, a, now) == Some(Met(c, player, a, now))
  {
  }

  /** Two players never both hold the same token. */
  lemma TokenHasOneHolder(c: Condition, player: Address, other: Address, a: Answers, now: nat)
    requires c.kind == NftHeld && Evaluate(c, player, a, now) == Some(true) && player != other
    ensures Evaluate(c, other, a, now) == Some(false)
  {
  }

  /** What is asked of the player at place `i`: the condition itself if it is mandatory,
      or else one of its group. */
  ghost predicate Fulfils(conditions: seq<Condition>, i: nat, player: Address, a: Answers, now: nat)
    requires i < |conditions|
  {
    if conditions[i].orGroup == 0 then Met(conditions[i], player, a, now)
    else exists j :: 0 <= j < |conditions| && conditions[j].orGroup == conditions[i].orGroup
                     && Met(conditions[j], player, a, now)
  }

  ghost predicate FulfilsAll(conditions: seq<Condition>, player: Address, a: Answers, now: nat) {
    forall i: nat :: i < |conditions| ==> Fulfils(conditions, i, player, a, now)
  }

  /** `failed` names, in order, exactly the places at which the player falls short. */
  ghost predicate NamesFailures(failed: seq<Failure>, conditions: seq<Condition>, player: Address, a: Answers,
                                now: nat) {
    && (forall x :: x in failed <==>
          x.index < |conditions| && !Fulfils(conditions, x.index, player, a, now)
          && x.kind == conditions[x.index].kind && x.orGroup == conditions[x.index].orGroup)
    && (forall i, j :: 0 <= i < j < |failed| ==> failed[i].index < failed[j].index)
  }

  lemma ResultsAreMet(conditions: seq<Condition>, player: Address, a: Answers, now: nat)
    requires AllValid(conditions)
    ensures var r := Results(conditions, player, a, now);
      r.Some? && forall i :: 0 <= i < |conditions| ==> r.value[i] == Met(conditions[i], player, a, now)
  {
    ValidEvaluates(conditions, player, a, now);
    ResultsEvaluate(conditions, player, a, now);
    forall i | 0 <= i < |conditions|
      ensures Evaluate(conditions[i], player, a, now) == Some(Met(conditions[i], player, a, now))
    {
      EvaluatesToMet(conditions[i], player, a, now);
    }
  }

  lemma ReportedIsUnfulfilled(conditions: seq<Condition>, player: Address, a: Answers, now: nat, i: nat)
    requires AllValid(conditions) && i < |conditions|
    ensures var r := Results(conditions, player, a, now);
      r.Some? && (Reported(conditions, r.value, i) <==> !Fulfils(conditions, i, player, a, now))
  {
    ResultsAreMet(conditions, player, a, now);
  }

  /** Eligibility and the failed list of valid conditions, in terms of the answers. */
  lemma EligibilityIsFulfilment(conditions: seq<Condition>, player: Address, a: Answers, now: nat)
    requires AllValid(conditions)
    ensures var r := Results(conditions, player, a, now);
      && r.Some? && (Eligible(conditions, r.value) <==> FulfilsAll(conditions, player, a, now))
      && NamesFailures(Failures(conditions, r.value, |conditions|), conditions, player, a, now)
  {
    ResultsAreMet(conditions, player, a, now);
    var r := Results(conditions, player, a, now).value;
    forall i: nat | i < |conditions| ensures Reported(conditions, r, i) <==> !Fulfils(conditions, i, player, a, now) {
      ReportedIsUnfulfilled(conditions, player, a, now, i);
    }
    FailuresAreExact(conditions, r, player, a, now);
    NothingReportedIff(conditions, r);
  }

  lemma NothingReportedIff(conditions: seq<Condition>, r: seq<bool>)
    requires |r| == |conditions|
    ensures Eligible(conditions, r) <==> forall i: nat :: i < |conditions| ==> !Reported(conditions, r, i)
  {
    forall i: nat | i < |conditions| && conditions[i].orGroup != 0
      ensures Reported(conditions, r, i) <==>
        !exists j :: 0 <= j < |conditions| && conditions[j].orGroup == conditions[i].orGroup && r[j]
    {
    }
    if forall i: nat :: i < |conditions| ==> !Reported(conditions, r, i) {
      forall i: nat | i < |conditions| && conditions[i].orGroup == 0 ensures r[i] {
        assert !Reported(conditions, r, i);
      }
      forall i: nat | i < |conditions| && conditions[i].orGroup != 0
        ensures exists j :: 0 <= j < |conditions| && conditions[j].orGroup == conditions[i].orGroup && r[j]
      {
        assert !Reported(conditions, r, i);
      }
    }
  }

  lemma FailuresAreExact(conditions: seq<Condition>, r: seq<bool>, player: Address, a: Answers, now: nat)
    requires |r| == |conditions|
    requires forall i: nat :: i < |conditions| ==>
      (Reported(conditions, r, i) <==> !Fulfils(conditions, i, player, a, now))
    ensures NamesFailures(Failures(conditions, r, |conditions|), conditions, player, a, now)
  {
    var failed := Failures(conditions, r, |conditions|);
    FailuresAreReported(conditions, r, |conditions|);
    forall x ensures x in failed <==>
        x.index < |conditions| && !Fulfils(conditions, x.index, player, a, now)
        && x.kind == conditions[x.index].kind && x.orGroup == conditions[x.index].orGroup
    {
      if x.index < |conditions| {
        assert Reported(conditions, r, x.index) <==> FailureAt(conditions, x.index) in failed;
      }
    }
  }

  // ---- The calls ----

  ghost predicate OnlyReward(w: World, w': World, id: nat) {
    id in w'.rewards && w'.rewards == w.rewards[id := w'.rewards[id]] && w'.admin == w.admin
  }

  /** A reward is claimed exactly by a player who does all that is asked, has not
      claimed it yet and finds a place, and whom the token pays; one place and the
      amount of the reward are gone then. */
  lemma ClaimPays(w: World, player: Address, id: nat, a: Answers, now: nat, moved: bool)
    requires Reachable(w) && id in w.rewards
    ensures var next, r := Next(w, Claim(player, id, a, now, moved)), w.rewards[id];
      && (next.Some? <==> r.active && |r.claimants| < r.maxClaims && player !in r.claimants && moved
                          && FulfilsAll(r.conditions, player, a, now))
      && (next.Some? ==>
            && OnlyReward(w, next.value, id) && next.value.nextId == w.nextId
            && next.value.rewards[id] == r.(claimants := r.claimants + [player])
            && next.value.net == w.net - r.amount)
  {
    ReachableIsSound(w);
    EligibilityIsFulfilment(w.rewards[id].conditions, player, a, now);
  }

  /** The parameters that a condition of its kind is read with are there. */
  ghost predicate Complete(c: Condition) {
    && c.orGroup != 0xFFFF_FFFF && c.params.contract != None
    && (c.kind == NftHeld ==> c.params.tokenId != None) && (c.kind == SolveCountGte ==> c.params.min != None)
    && (c.kind == RegistrationAgeGte ==> c.params.days != None)
    && (c.kind == TierGte ==> c.params.tier in {Some(0), Some(1), Some(2)})
  }

  lemma CreationFunds(w: World, caller: Address, conditions: seq<Condition>, amount: int, maxClaims: nat, moved: bool)
    ensures var next, id := Next(w, Create(caller, conditions, amount, maxClaims, moved)), w.nextId;
      && (next.Some? <==>
            && caller == w.admin && amount > 0 && maxClaims > 0 && |conditions| > 0 && moved && id < U64_MAX
            && amount * maxClaims <= I128_MAX && forall c :: c in conditions ==> Complete(c))
      && (next.Some? ==>
            && OnlyReward(w, next.value, id) && next.value.nextId == id + 1
            && next.value.rewards[id] == Reward(amount, conditions, [], maxClaims, true)
            && next.value.net == w.net + amount * maxClaims)
  {
    forall c ensures ValidCondition(c) <==> Complete(c) {
    }
    assert AllValid(conditions) <==> forall c :: c in conditions ==> Complete(c);
  }

  /** The administrator gets back the amount for every place left. */
  lemma DeactivationRefunds(w: World, caller: Address, id: nat, moved: bool)
    requires Reachable(w) && id in w.rewards
    ensures var next, r := Next(w, Deactivate(caller, id, moved)), w.rewards[id];
      var left := r.maxClaims - |r.claimants|;
      && (next.Some? <==> caller == w.admin && r.active && (left > 0 ==> moved))
      && (next.Some? ==>
            && OnlyReward(w, next.value, id) && next.value.nextId == w.nextId
            && next.value.rewards[id] == r.(active := false)
            && next.value.net == w.net - r.amount * left)
  {
    ReachableIsSound(w);
    if w.rewards[id].active {
      OpenClaimsAreFunded(w, id);
      RefundIsPositive(w.rewards[id]);
    }
  }

  lemma RefundIsPositive(r: Reward)
    requires r.amount > 0
    ensures Remaining(r) > 0 <==> r.amount * Remaining(r) > 0
  {
    if Remaining(r) > 0 {
      assert r.amount * Remaining(r) >= Remaining(r);
    }
  }
}
