/** A run in which an achievement set is accepted that nobody can ever claim. */
module AchievementExamples {
  import opened Host
  import opened Sequences
  import opened AchievementBooks
  import Runs

  /** The administrator's set lists the same puzzle twice. */
  lemma RepeatedPuzzleIsAccepted(admin: Address, puzzle: nat) returns (w: World)
    ensures Reachable(w) && w.admin == admin
    ensures w.sets == map[1 := AchievementSet([puzzle, puzzle], Common, 10, None)]
  {
    var s := AchievementSet([puzzle, puzzle], Common, 10, None);
    StartIsReachable(admin, 1);
    ReachableStep(Start(admin, 1), CreateSet(admin, s));
    w := Step(Start(admin, 1), CreateSet(admin, s));
  }

  /** An accepted set that a player who owns all its puzzles cannot claim, at no time
      and whatever the reward contract answers. */
  lemma RepeatedPuzzleIsRefused(admin: Address, player: Address, puzzle: nat)
    ensures exists w :: Reachable(w) && 1 in w.sets && (forall p :: p in w.sets[1].required ==> p in [puzzle])
                     && forall minted, now :: Next(w, ClaimSet(player, 1, [puzzle], minted, now)) == None
  {
    var w := RepeatedPuzzleIsAccepted(admin, puzzle);
    assert w.sets[1].required[0] == w.sets[1].required[1];
  }

  /** A set that repeats a puzzle is never claimed, in no run after its creation. */
  lemma {:induction false} RepeatedSetsStayUnclaimed(w: World, calls: seq<Call>, id: nat, player: Address)
    requires Reachable(w) && id in w.sets && !Distinct(w.sets[id].required) && (player, id) !in w.setClaimed
    ensures (player, id) !in Runs.Run(Step, w, calls).setClaimed
    decreases |calls|
  {
    if calls != [] {
      ReachableStep(w, calls[0]);
      assert id < w.nextSetId by { ReachableIsSound(w); }
      StepLeavesUnclaimed(w, calls[0], id, player);
      RepeatedSetsStayUnclaimed(Step(w, calls[0]), calls[1..], id, player);
    }
  }

  lemma StepLeavesUnclaimed(w: World, c: Call, id: nat, player: Address)
    requires id in w.sets && id < w.nextSetId && !Distinct(w.sets[id].required) && (player, id) !in w.setClaimed
    ensures id in Step(w, c).sets && Step(w, c).sets[id] == w.sets[id] && (player, id) !in Step(w, c).setClaimed
  {
    match c
    case CreateSet(_, _) =>
    case CreateSynergy(_, _) =>
    case ClaimSet(_, _, _, _, _) =>
    case ClaimSynergy(_, _, _, _, _) =>
  }
}
