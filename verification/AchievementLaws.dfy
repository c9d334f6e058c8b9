/** What each accepted call of the achievement-set contract needs and does, puzzle by
    puzzle and player by player. */
module AchievementLaws {
  import opened Host
  import opened Sums
  import opened AchievementBooks
  import Runs

  /** The player owns every required puzzle, and none is required twice. */
  ghost predicate OwnsAll(required: seq<nat>, owned: seq<nat>) {
    && (forall p :: p in required ==> p in owned)
    && (forall i, j :: 0 <= i < j < |required| ==> required[i] != required[j])
  }

  /** The base bonus and what the tier adds. */
  function Bonus(s: AchievementSet): int {
    s.baseBonus + if s.tier == Common then 0 else if s.tier == Rare then 50 else if s.tier == Epic then 125
                  else if s.tier == Legendary then 300 else 750
  }

  /** Only `player`'s total changes, by `bonus`. */
  ghost predicate Earns(w: World, w': World, player: Address, bonus: int) {
    forall p :: Get(w'.totals, p) == Get(w.totals, p) + if p == player then bonus else 0
  }

  /** A set is paid out exactly to a player who owns every one of its puzzles, none
      being required twice, who did not claim it before and for whom there is an
      edition left. */
  lemma SetClaimNeedsPuzzles(w: World, player: Address, id: nat, owned: seq<nat>, minted: bool, now: nat)
    ensures Next(w, ClaimSet(player, id, owned, minted, now)).Some? <==>
      && id in w.sets && OwnsAll(w.sets[id].required, owned) && (player, id) !in w.setClaimed && minted
      && (w.sets[id].cap == None || Get(w.setClaims, id) < w.sets[id].cap.value)
      && Bonus(w.sets[id]) <= I128_MAX && Get(w.totals, player) + Bonus(w.sets[id]) <= I128_MAX
  {
  }

  /** The bonus goes to the claiming player, the claim is noted, and nothing else. */
  lemma SetClaimPays(w: World, player: Address, id: nat, owned: seq<nat>, minted: bool, now: nat)
    requires Next(w, ClaimSet(player, id, owned, minted, now)).Some?
    ensures id in w.sets
    ensures var w', s := Next(w, ClaimSet(player, id, owned, minted, now)).value, w.sets[id];
      && Earns(w, w', player, Bonus(s)) && w'.granted == w.granted[ForSet(player, id) := Bonus(s)]
      && w'.setClaimed == w.setClaimed + {(player, id)} && w'.synergyClaimed == w.synergyClaimed
      && (forall k :: Get(w'.setClaims, k) == Get(w.setClaims, k) + if k == id && s.cap.Some? then 1 else 0)
      && w'.sets == w.sets && w'.synergies == w.synergies && w'.admin == w.admin && w'.maxTop == w.maxTop
  {
  }

  /** A synergy is paid out exactly to a player who owns every puzzle of every one of
      its sets and did not claim it before. */
  lemma SynergyClaimNeedsPuzzles(w: World, player: Address, id: nat, owned: seq<nat>, minted: bool, now: nat)
    ensures Next(w, ClaimSynergy(player, id, owned, minted, now)).Some? <==>
      && id in w.synergies
      && (forall k :: k in w.synergies[id].required ==> k in w.sets && OwnsAll(w.sets[k].required, owned))
      && (player, id) !in w.synergyClaimed && minted && Get(w.totals, player) + w.synergies[id].bonus <= I128_MAX
  {
    forall k | k in w.sets ensures Complete(w.sets[k], owned) <==> OwnsAll(w.sets[k].required, owned) {
    }
  }

  lemma SynergyClaimPays(w: World, player: Address, id: nat, owned: seq<nat>, minted: bool, now: nat)
    requires Next(w, ClaimSynergy(player, id, owned, minted, now)).Some?
    ensures id in w.synergies
    ensures var w', s := Next(w, ClaimSynergy(player, id, owned, minted, now)).value, w.synergies[id];
      && Earns(w, w', player, s.bonus) && w'.granted == w.granted[ForSynergy(player, id) := s.bonus]
      && w'.setClaimed == w.setClaimed && w'.synergyClaimed == w.synergyClaimed + {(player, id)}
      && w'.setClaims == w.setClaims && w'.setBoards == w.setBoards
      && w'.sets == w.sets && w'.synergies == w.synergies && w'.admin == w.admin && w'.maxTop == w.maxTop
  {
  }

  // ---- Definitions ----

  lemma SetIsDefined(w: World, caller: Address, s: AchievementSet)
    ensures var next := Next(w, CreateSet(caller, s));
      && (next.Some? <==> caller == w.admin && |s.required| > 0 && s.baseBonus > 0
                          && (s.cap.Some? ==> s.cap.value > 0) && w.nextSetId < U32_MAX)
      && (next.Some? ==>
            && next.value == w.(sets := next.value.sets, nextSetId := w.nextSetId + 1)
            && next.value.sets == w.sets[w.nextSetId := s])
  {
  }

  lemma SynergyIsDefined(w: World, caller: Address, s: Synergy)
    ensures var next := Next(w, CreateSynergy(caller, s));
      && (next.Some? <==> caller == w.admin && |s.required| >= 2 && s.bonus > 0 && w.nextSynergyId < U32_MAX
                          && forall i :: i in s.required ==> i in w.sets)
      && (next.Some? ==>
            && next.value == w.(synergies := next.value.synergies, nextSynergyId := w.nextSynergyId + 1)
            && next.value.synergies == w.synergies[w.nextSynergyId := s])
  {
  }

  // ---- For every run ----

  /** A claim that a grant can have come from: by its player, with every puzzle of the
      set, or of each set of the synergy, in the owned list. */
  ghost predicate Earned(w: World, g: Grant, c: Call) {
    match g
    case ForSet(p, id) =>
      && c.ClaimSet? && c.player == p && c.id == id
      && id in w.sets && OwnsAll(w.sets[id].required, c.owned)
    case ForSynergy(p, id) =>
      && c.ClaimSynergy? && c.player == p && c.id == id
      && id in w.synergies && forall k :: k in w.synergies[id].required ==>
                                k in w.sets && OwnsAll(w.sets[k].required, c.owned)
  }

  /** Definitions are never changed. */
  ghost predicate Extends(w: World, w': World) {
    && (forall k :: k in w.sets ==> k in w'.sets && w'.sets[k] == w.sets[k])
    && (forall k :: k in w.synergies ==> k in w'.synergies && w'.synergies[k] == w.synergies[k])
  }

  ghost predicate FreshIds(w: World) {
    (forall k :: k in w.sets ==> k < w.nextSetId) && (forall k :: k in w.synergies ==> k < w.nextSynergyId)
  }

  lemma SetDefinitionExtends(w: World, c: Call)
    requires FreshIds(w) && c.CreateSet?
    ensures Extends(w, Step(w, c)) && FreshIds(Step(w, c))
  {
    SetIsDefined(w, c.caller, c.newSet);
  }

  lemma SynergyDefinitionExtends(w: World, c: Call)
    requires FreshIds(w) && c.CreateSynergy?
    ensures Extends(w, Step(w, c)) && FreshIds(Step(w, c))
  {
    SynergyIsDefined(w, c.caller, c.newSynergy);
  }

  lemma ClaimingExtends(w: World, c: Call)
    requires FreshIds(w) && (c.ClaimSet? || c.ClaimSynergy?)
    ensures Extends(w, Step(w, c)) && FreshIds(Step(w, c))
  {
    var w' := Step(w, c);
    assert w'.sets == w.sets && w'.synergies == w.synergies
           && w'.nextSetId == w.nextSetId && w'.nextSynergyId == w.nextSynergyId;
  }

  lemma StepExtends(w: World, c: Call)
    requires FreshIds(w)
    ensures Extends(w, Step(w, c)) && FreshIds(Step(w, c))
  {
    if c.CreateSet? {
      SetDefinitionExtends(w, c);
    } else if c.CreateSynergy? {
      SynergyDefinitionExtends(w, c);
    } else {
      ClaimingExtends(w, c);
    }
  }

  lemma EarnedStays(w: World, w': World, g: Grant, c: Call)
    requires Extends(w, w') && Earned(w, g, c)
    ensures Earned(w', g, c)
  {
  }

  /** The only grant a call adds is the one it has earned. */
  lemma StepGrantsEarned(w: World, c: Call, g: Grant)
    requires g in Step(w, c).granted && g !in w.granted
    ensures Earned(w, g, c)
  {
    match c
    case CreateSet(_, _) =>
    case CreateSynergy(_, _) =>
    case ClaimSet(player, id, owned, minted, now) =>
      SetClaimNeedsPuzzles(w, player, id, owned, minted, now);
      if Next(w, c).Some? { SetClaimPays(w, player, id, owned, minted, now); }
    case ClaimSynergy(player, id, owned, minted, now) =>
      SynergyClaimNeedsPuzzles(w, player, id, owned, minted, now);
      if Next(w, c).Some? { SynergyClaimPays(w, player, id, owned, minted, now); }
  }

  lemma {:induction false} RunGrantsEarned(w: World, calls: seq<Call>, g: Grant)
    requires FreshIds(w) && g in Runs.Run(Step, w, calls).granted && g !in w.granted
    ensures Extends(w, Runs.Run(Step, w, calls))
    ensures exists c :: c in calls && Earned(Runs.Run(Step, w, calls), g, c)
    decreases |calls|
  {
    var c, w' := calls[0], Step(w, calls[0]);
    StepExtends(w, c);
    RunExtends(w', calls[1..]);
    if g in w'.granted {
      StepGrantsEarned(w, c, g);
      EarnedStays(w, Runs.Run(Step, w, calls), g, c);
      assert c in calls;
    } else {
      RunGrantsEarned(w', calls[1..], g);
    }
  }

  lemma {:induction false} RunExtends(w: World, calls: seq<Call>)
    requires FreshIds(w)
    ensures Extends(w, Runs.Run(Step, w, calls))
    decreases |calls|
  {
    if calls != [] {
      StepExtends(w, calls[0]);
      RunExtends(Step(w, calls[0]), calls[1..]);
    }
  }

  /** Every bonus ever granted came from a claim of its player that showed every
      puzzle of the set, or of all sets of the synergy, as owned. */
  lemma GrantsAreEarned(admin: Address, maxTop: nat, calls: seq<Call>, g: Grant)
    requires g in Runs.Run(Step, Start(admin, maxTop), calls).granted
    ensures exists c :: c in calls && Earned(Runs.Run(Step, Start(admin, maxTop), calls), g, c)
  {
    RunGrantsEarned(Start(admin, maxTop), calls, g);
  }
}
