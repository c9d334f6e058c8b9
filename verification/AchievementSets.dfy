/** The achievement-set contract: storage updated in place, proved against the
    state machine of AchievementBooks. */
module AchievementSets {
  import opened Host
  import opened Sums
  import opened TopN
  import opened AchievementBooks

  method CompletedPuzzles(required: seq<nat>, owned: seq<nat>) returns (completed: seq<nat>)
    ensures completed == Completed(required, owned)
  {
    completed := [];
    for i := 0 to |required|
      invariant completed == Completed(required[..i], owned)
    {
      assert required[..i + 1][..i] == required[..i];
      if required[i] in owned && required[i] !in completed {
        completed := completed + [required[i]];
      }
    }
    assert required[..|required|] == required;
  }

  method Initialize(admin: Address, maxTopEntries: nat) returns (c: AchievementSets?)
    ensures c == null <==> maxTopEntries == 0
    ensures c != null ==> fresh(c) && c.Valid() && c.world == Start(admin, maxTopEntries)
  {
    if maxTopEntries == 0 {
      return null;
    }
    c := new AchievementSets(admin, maxTopEntries);
  }

  class AchievementSets {
    const admin: Address
    const maxTop: nat
    var nextSetId: nat
    var nextSynergyId: nat
    var sets: map<nat, AchievementSet>
    var synergies: map<nat, Synergy>
    var setClaimed: set<(Address, nat)>
    var synergyClaimed: set<(Address, nat)>
    var setClaims: map<nat, int>
    var totals: Table
    var globalBoard: seq<Entry>
    var setBoards: map<nat, seq<Entry>>
    ghost var world: World

    ghost predicate Valid()
      reads this
    {
      && Reachable(world)
      && admin == world.admin && maxTop == world.maxTop
      && nextSetId == world.nextSetId && nextSynergyId == world.nextSynergyId
      && sets == world.sets && synergies == world.synergies
      && setClaimed == world.setClaimed && synergyClaimed == world.synergyClaimed
      && setClaims == world.setClaims && totals == world.totals
      && globalBoard == world.globalBoard && setBoards == world.setBoards
    }

    constructor (admin: Address, maxTop: nat)
      requires maxTop >= 1
      ensures Valid() && world == Start(admin, maxTop)
    {
      this.admin, this.maxTop, nextSetId, nextSynergyId := admin, maxTop, 1, 1;
      sets, synergies, setClaimed, synergyClaimed, setClaims := map[], map[], {}, {}, map[];
      totals, globalBoard, setBoards := map[], [], map[];
      world := Start(admin, maxTop);
      new;
      StartIsReachable(admin, maxTop);
    }

    method CreateSet(caller: Address, required: seq<nat>, tier: Tier, baseBonus: i128, cap: Option<u32>)
        returns (id: Option<nat>)
      requires Valid()
      modifies this
      ensures Valid() && (id.None? ==> unchanged(this))
      ensures Commits(old(world), AfterCreateSet(old(world), caller, AchievementSet(required, tier, baseBonus, cap)),
                      world, id.Some?)
      ensures id.Some? ==> id.value == old(nextSetId)
    {
      var s := AchievementSet(required, tier, baseBonus, cap);
      if caller != admin || required == [] || baseBonus <= 0 || cap == Some(0) || nextSetId >= U32_MAX {
        return None;
      }
      ReachableStep(world, Call.CreateSet(caller, s));
      world := AfterCreateSet(world, caller, s).value;
      id := Some(nextSetId);
      sets := sets[nextSetId := s];
      nextSetId := nextSetId + 1;
    }

    method CreateSynergy(caller: Address, required: seq<nat>, bonus: i128) returns (id: Option<nat>)
      requires Valid()
      modifies this
      ensures Valid() && (id.None? ==> unchanged(this))
      ensures Commits(old(world), AfterCreateSynergy(old(world), caller, Synergy(required, bonus)), world, id.Some?)
      ensures id.Some? ==> id.value == old(nextSynergyId)
    {
      var s := Synergy(required, bonus);
      if caller != admin || |required| < 2 || bonus <= 0 || nextSynergyId >= U32_MAX {
        return None;
      }
      for i := 0 to |required|
        invariant forall j :: 0 <= j < i ==> required[j] in sets
        invariant unchanged(this)
      {
        if required[i] !in sets {
          return None;
        }
      }
      ReachableStep(world, Call.CreateSynergy(caller, s));
      world := AfterCreateSynergy(world, caller, s).value;
      id := Some(nextSynergyId);
      synergies := synergies[nextSynergyId := s];
      nextSynergyId := nextSynergyId + 1;
    }

    method UpdateGlobalLeaderboard(player: Address, now: nat)
      modifies this`globalBoard
      ensures globalBoard == Refreshed(old(globalBoard), Entry(player, Get(totals, player), now), maxTop)
    {
      globalBoard := Refresh(globalBoard, Entry(player, Get(totals, player), now), maxTop);
    }

    method AddPlayerBonus(player: Address, delta: int, now: nat)
      modifies this`totals, this`globalBoard
      ensures var e := Raised(old(totals), player, delta, now);
        totals == old(totals)[e.player := e.score] && globalBoard == Refreshed(old(globalBoard), e, maxTop)
    {
      var total := Get(totals, player) + delta;
      totals := totals[player := total];
      UpdateGlobalLeaderboard(player, now);
    }

    method UpdateSetLeaderboard(id: nat, player: Address, score: int, now: nat)
      modifies this`setBoards
      ensures setBoards
           == old(setBoards)[id := Refreshed(BoardOf(old(setBoards), id), Entry(player, score, now), maxTop)]
    {
      var board := Refresh(BoardOf(setBoards, id), Entry(player, score, now), maxTop);
      setBoards := setBoards[id := board];
    }

    method SetCompleted(id: nat, owned: seq<nat>) returns (complete: bool)
      requires id in sets
      ensures complete <==> Complete(sets[id], owned)
    {
      var completed := CompletedPuzzles(sets[id].required, owned);
      CompleteIff(sets[id].required, owned);
      complete := IsCompleted(sets[id].required, completed);
    }

    method ClaimSetBonus(player: Address, id: nat, owned: seq<nat>, minted: bool, now: nat) returns (bonus: Option<int>)
      requires Valid()
      modifies this
      ensures Valid() && (bonus.None? ==> unchanged(this))
      ensures Commits(old(world), AfterClaimSet(old(world), player, id, owned, minted, now), world, bonus.Some?)
      ensures bonus.Some? ==> id in sets && bonus.value == BonusOf(sets[id])
      ensures bonus.Some? ==> forall p :: p in sets[id].required ==> p in owned
    {
      var may := MayClaimSet(player, id, owned, minted, now);
      if !may {
        return None;
      }
      ghost var target := WithSetClaim(world, player, id, now);
      assert Reachable(target) by { ReachableStep(world, Call.ClaimSet(player, id, owned, minted, now)); }
      RecordSetClaim(player, id, now);
      world := target;
      bonus := Some(BonusOf(sets[id]));
    }

    /** The checks before a set bonus is paid. */
    method MayClaimSet(player: Address, id: nat, owned: seq<nat>, minted: bool, now: nat) returns (may: bool)
      requires Valid()
      ensures may == AfterClaimSet(world, player, id, owned, minted, now).Some?
    {
      if id !in sets || (player, id) in setClaimed {
        return false;
      }
      var s := sets[id];
      if s.cap.Some? && Get(setClaims, id) >= s.cap.value {
        return false;
      }
      var complete := SetCompleted(id, owned);
      may := complete && BonusOf(s) <= I128_MAX && minted && Get(totals, player) + BonusOf(s) <= I128_MAX;
    }

    method RecordSetClaim(player: Address, id: nat, now: nat)
      requires id in sets
      modifies this`setClaimed, this`setClaims, this`totals, this`globalBoard, this`setBoards
      ensures setClaimed == old(setClaimed) + {(player, id)}
      ensures setClaims == if sets[id].cap.Some? then old(setClaims)[id := Get(old(setClaims), id) + 1]
                           else old(setClaims)
      ensures var e := Raised(old(totals), player, BonusOf(sets[id]), now);
        totals == old(totals)[e.player := e.score] && globalBoard == Refreshed(old(globalBoard), e, maxTop)
      ensures setBoards == old(setBoards)[id := Refreshed(BoardOf(old(setBoards), id),
                                                          Entry(player, BonusOf(sets[id]), now), maxTop)]
    {
      setClaimed := setClaimed + {(player, id)};
      if sets[id].cap.Some? {
        setClaims := setClaims[id := Get(setClaims, id) + 1];
      }
      AddPlayerBonus(player, BonusOf(sets[id]), now);
      UpdateSetLeaderboard(id, player, BonusOf(sets[id]), now);
    }

    method RecordSynergyClaim(player: Address, id: nat, bonus: int, now: nat)
      modifies this`synergyClaimed, this`totals, this`globalBoard
      ensures synergyClaimed == old(synergyClaimed) + {(player, id)}
      ensures var e := Raised(old(totals), player, bonus, now);
        totals == old(totals)[e.player := e.score] && globalBoard == RefreshedTwice(old(globalBoard), e, maxTop)
    {
      synergyClaimed := synergyClaimed + {(player, id)};
      AddPlayerBonus(player, bonus, now);
      UpdateGlobalLeaderboard(player, now);
    }

    method SetsCompleted(required: seq<nat>, owned: seq<nat>) returns (complete: bool)
      ensures complete <==> forall i :: i in required ==> i in sets && Complete(sets[i], owned)
    {
      for i := 0 to |required|
        invariant forall j :: 0 <= j < i ==> required[j] in sets && Complete(sets[required[j]], owned)
      {
        assert required[i] in required;
        if required[i] !in sets {
          return false;
        }
        var done := SetCompleted(required[i], owned);
        if !done {
          return false;
        }
      }
      complete := true;
    }

    method ClaimSynergyBonus(player: Address, id: nat, owned: seq<nat>, minted: bool, now: nat)
        returns (bonus: Option<int>)
      requires Valid()
      modifies this
      ensures Valid() && (bonus.None? ==> unchanged(this))
      ensures Commits(old(world), AfterClaimSynergy(old(world), player, id, owned, minted, now), world, bonus.Some?)
      ensures bonus.Some? ==> id in synergies && bonus.value == synergies[id].bonus
      ensures bonus.Some? ==> forall k :: k in synergies[id].required ==>
        k in sets && forall p :: p in sets[k].required ==> p in owned
    {
      var may := MayClaimSynergy(player, id, owned, minted, now);
      if !may {
        return None;
      }
      ghost var target := WithSynergyClaim(world, player, id, now);
      assert Reachable(target) by { ReachableStep(world, Call.ClaimSynergy(player, id, owned, minted, now)); }
      bonus := Some(synergies[id].bonus);
      RecordSynergyClaim(player, id, bonus.value, now);
      world := target;
    }

    /** The checks before a synergy bonus is paid. */
    method MayClaimSynergy(player: Address, id: nat, owned: seq<nat>, minted: bool, now: nat) returns (may: bool)
      requires Valid()
      ensures may == AfterClaimSynergy(world, player, id, owned, minted, now).Some?
    {
      if id !in synergies || (player, id) in synergyClaimed {
        return false;
      }
      var complete := SetsCompleted(synergies[id].required, owned);
      may := complete && minted && Get(totals, player) + synergies[id].bonus <= I128_MAX;
    }
  }
}
