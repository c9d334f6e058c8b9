/** Conditions a player must meet for a reward: all of group 0, and at least one
    of every other group. */
module RewardConditions {
  import opened Host

  const DAY := 86_400

  datatype Kind = NftHeld | SolveCountGte | RegistrationAgeGte | TierGte

  /** Per key the stored value, if it has the type the key is read with. */
  datatype Params = Params(
    contract: Option<Address>, tokenId: Option<u32>, min: Option<u32>, days: Option<u64>, tier: Option<u32>,
    activity: Option<u32>)

  datatype Condition = Condition(kind: Kind, params: Params, orGroup: u32)

  datatype Failure = Failure(index: nat, kind: Kind, orGroup: u32)

  datatype Tier = Free | Pro | Elite

  /** What the other contracts answer; None is a failed call or no record. */
  datatype Answers = Answers(
    ownerOf: (Address, nat) -> Option<Address>,
    activityCount: (Address, Address, nat) -> Option<nat>,
    registeredAt: (Address, Address) -> Option<nat>,
    hasAccess: (Address, Address, Tier) -> Option<bool>)

  function TierOf(n: nat): Option<Tier> {
    if n == 0 then Some(Free) else if n == 1 then Some(Pro) else if n == 2 then Some(Elite) else None
  }

  function Age(now: nat, since: nat): nat {
    if now < since then 0 else now - since
  }

  function Seconds(days: nat): nat {
    if days * DAY > U64_MAX then U64_MAX else days * DAY
  }

  /** None stands for the panic over a missing or invalid parameter. */
  function Evaluate(c: Condition, player: Address, a: Answers, now: nat): Option<bool> {
    var p := c.params;
    if p.contract.None? then None
    else
      match c.kind
      case NftHeld =>
        if p.tokenId.None? then None else Some(a.ownerOf(p.contract.value, p.tokenId.value) == Some(player))
      case SolveCountGte =>
        if p.min.None? then None else
          var count := a.activityCount(p.contract.value, player, if p.activity.Some? then p.activity.value else 0);
          Some(count.Some? && count.value >= p.min.value)
      case RegistrationAgeGte =>
        if p.days.None? then None else
          var since := a.registeredAt(p.contract.value, player);
          Some(since.Some? && Age(now, since.value) >= Seconds(p.days.value))
      case TierGte =>
        if p.tier.None? || TierOf(p.tier.value).None? then None
        else Some(a.hasAccess(p.contract.value, player, TierOf(p.tier.value).value) == Some(true))
  }

  /** Who once was registered long enough stays so. */
  lemma AgeNeverExpires(c: Condition, player: Address, a: Answers, now: nat, later: nat)
    requires c.kind == RegistrationAgeGte && now <= later && Evaluate(c, player, a, now) == Some(true)
    ensures Evaluate(c, player, a, later) == Some(true)
  {
  }

  /** The checks when a reward is created. */
  predicate ValidCondition(c: Condition) {
    var p := c.params;
    && c.orGroup != U32_MAX && p.contract.Some?
    && match c.kind
       case NftHeld => p.tokenId.Some?
       case SolveCountGte => p.min.Some?
       case RegistrationAgeGte => p.days.Some?
       case TierGte => p.tier.Some? && TierOf(p.tier.value).Some?
  }

  predicate AllValid(conditions: seq<Condition>) {
    forall i :: 0 <= i < |conditions| ==> ValidCondition(conditions[i])
  }

  /** A condition passes evaluation without a panic, whatever the other contracts
      answer, exactly if the creation check passes it (up to the reserved group). */
  lemma EvaluatesIff(c: Condition, player: Address, a: Answers, now: nat)
    ensures Evaluate(c, player, a, now).Some? && c.orGroup != U32_MAX <==> ValidCondition(c)
  {
  }

  // ---- Groups ----

  ghost predicate GroupPasses(conditions: seq<Condition>, results: seq<bool>, g: nat)
    requires |results| == |conditions|
  {
    exists i :: 0 <= i < |conditions| && conditions[i].orGroup == g && results[i]
  }

  /** The condition is reported: it is mandatory and failed, or its group did. */
  ghost predicate Reported(conditions: seq<Condition>, results: seq<bool>, i: nat)
    requires |results| == |conditions| && i < |conditions|
  {
    if conditions[i].orGroup == 0 then !results[i] else !GroupPasses(conditions, results, conditions[i].orGroup)
  }

  ghost predicate Eligible(conditions: seq<Condition>, results: seq<bool>)
    requires |results| == |conditions|
  {
    && (forall i :: 0 <= i < |conditions| && conditions[i].orGroup == 0 ==> results[i])
    && (forall i :: 0 <= i < |conditions| && conditions[i].orGroup != 0 ==>
          exists j :: 0 <= j < |conditions| && conditions[j].orGroup == conditions[i].orGroup && results[j])
  }

  function FailureAt(conditions: seq<Condition>, i: nat): Failure
    requires i < |conditions|
  {
    Failure(i, conditions[i].kind, conditions[i].orGroup)
  }

  /** The reported conditions among the first `n`, in order. */
  ghost function Failures(conditions: seq<Condition>, results: seq<bool>, n: nat): seq<Failure>
    requires |results| == |conditions| && n <= |conditions|
  {
    if n == 0 then [] else
      var before := Failures(conditions, results, n - 1);
      if Reported(conditions, results, n - 1) then before + [FailureAt(conditions, n - 1)] else before
  }

  lemma {:induction false} FailuresAreReported(conditions: seq<Condition>, results: seq<bool>, n: nat)
    requires |results| == |conditions| && n <= |conditions|
    ensures var f := Failures(conditions, results, n);
      && (forall i: nat :: i < n ==> (Reported(conditions, results, i) <==> FailureAt(conditions, i) in f))
      && (forall x :: x in f ==> x.index < n && x == FailureAt(conditions, x.index))
      && (forall i, j :: 0 <= i < j < |f| ==> f[i].index < f[j].index)
    decreases n
  {
    if n > 0 {
      FailuresAreReported(conditions, results, n - 1);
      var before := Failures(conditions, results, n - 1);
      forall i | 0 <= i < |before| ensures before[i].index < n - 1 {
        assert before[i] in before;
      }
    }
  }

  /** A player is eligible exactly when nothing is reported. */
  lemma EligibleIff(conditions: seq<Condition>, results: seq<bool>)
    requires |results| == |conditions|
    ensures Eligible(conditions, results) <==> Failures(conditions, results, |conditions|) == []
  {
    var f := Failures(conditions, results, |conditions|);
    FailuresAreReported(conditions, results, |conditions|);
    if f == [] {
      forall i: nat | i < |conditions| ensures !Reported(conditions, results, i) {
        assert FailureAt(conditions, i) !in f;
      }
      forall i: nat | i < |conditions| && conditions[i].orGroup != 0
        ensures GroupPasses(conditions, results, conditions[i].orGroup)
      {
        assert !Reported(conditions, results, i);
      }
      forall i: nat | i < |conditions| && conditions[i].orGroup == 0 ensures results[i] {
        assert !Reported(conditions, results, i);
      }
    } else {
      assert f[0] in f && Reported(conditions, results, f[0].index);
    }
  }

  method GroupSatisfied(conditions: seq<Condition>, results: seq<bool>, g: nat) returns (satisfied: bool)
    requires |results| == |conditions|
    ensures satisfied <==> GroupPasses(conditions, results, g)
  {
    var index := 0;
    while index < |conditions|
      invariant 0 <= index <= |conditions|
      invariant forall i :: 0 <= i < index ==> !(conditions[i].orGroup == g && results[i])
    {
      if conditions[index].orGroup == g && results[index] {
        return true;
      }
      index := index + 1;
    }
    satisfied := false;
  }

  /** The results of all conditions; None if one of them panics. */
  ghost function Results(conditions: seq<Condition>, player: Address, a: Answers, now: nat): (r: Option<seq<bool>>)
    ensures r.Some? ==> |r.value| == |conditions|
  {
    if conditions == [] then Some([]) else
      var before := Results(conditions[..|conditions| - 1], player, a, now);
      var last := Evaluate(conditions[|conditions| - 1], player, a, now);
      if before.None? || last.None? then None else Some(before.value + [last.value])
  }

  lemma {:induction false} ResultsEvaluate(conditions: seq<Condition>, player: Address, a: Answers, now: nat)
    ensures var r := Results(conditions, player, a, now);
      && (r.Some? <==> forall i :: 0 <= i < |conditions| ==> Evaluate(conditions[i], player, a, now).Some?)
      && (r.Some? ==> forall i :: 0 <= i < |conditions| ==> Evaluate(conditions[i], player, a, now) == Some(r.value[i]))
    decreases |conditions|
  {
    if conditions != [] {
      ResultsEvaluate(conditions[..|conditions| - 1], player, a, now);
    }
  }

  lemma ValidEvaluates(conditions: seq<Condition>, player: Address, a: Answers, now: nat)
    requires AllValid(conditions)
    ensures Results(conditions, player, a, now).Some?
  {
    ResultsEvaluate(conditions, player, a, now);
    forall i | 0 <= i < |conditions| ensures Evaluate(conditions[i], player, a, now).Some? {
      EvaluatesIff(conditions[i], player, a, now);
    }
  }

  method EvaluateAll(conditions: seq<Condition>, player: Address, a: Answers, now: nat) returns (r: Option<seq<bool>>)
    ensures r == Results(conditions, player, a, now)
  {
    var results := [];
    for i := 0 to |conditions|
      invariant Results(conditions[..i], player, a, now) == Some(results)
    {
      assert conditions[..i + 1][..i] == conditions[..i];
      var passed := Evaluate(conditions[i], player, a, now);
      if passed.None? {
        ResultsEvaluate(conditions, player, a, now);
        return None;
      }
      results := results + [passed.value];
    }
    assert conditions[..|conditions|] == conditions;
    r := Some(results);
  }

  /** Eligibility with the exact list of what was missing. */
  method EvaluateReward(conditions: seq<Condition>, results: seq<bool>) returns (eligible: bool, failed: seq<Failure>)
    requires |results| == |conditions|
    ensures failed == Failures(conditions, results, |conditions|)
    ensures eligible <==> Eligible(conditions, results)
  {
    failed, eligible := [], true;
    var index := 0;
    while index < |conditions|
      invariant 0 <= index <= |conditions|
      invariant failed == Failures(conditions, results, index)
      invariant eligible <==> failed == []
    {
      if conditions[index].orGroup == 0 {
        if !results[index] {
          eligible := false;
          failed := failed + [Failure(index, conditions[index].kind, 0)];
        }
      } else {
        var satisfied := GroupSatisfied(conditions, results, conditions[index].orGroup);
        if !satisfied {
          eligible := false;
          failed := failed + [Failure(index, conditions[index].kind, conditions[index].orGroup)];
        }
      }
      index := index + 1;
    }
    EligibleIff(conditions, results);
  }
}
