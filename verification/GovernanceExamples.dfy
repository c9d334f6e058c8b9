/** Runs of the governance token in which votes outweigh the snapshot. */
module GovernanceExamples {
  import opened Host
  import opened VotingBooks
  import opened Governance
  import opened GovernanceProofs

  lemma PowerOfNobody(d: Address)
    ensures Power(EMPTY, d) == 0 && Supply(EMPTY) == 0
  {
    assert Backers(EMPTY, d) == map[];
  }

  lemma Takes(w: World, c: Call) returns (w': World)
    requires Reachable(w) && Next(w, c).Some?
    ensures Reachable(w') && w' == Next(w, c).value
  {
    ReachableStep(w, c);
    w' := Step(w, c);
  }

  lemma Closes(w: World) returns (w': World)
    requires Reachable(w) && w.closed == [] && w.now == 0
    ensures Reachable(w') && w' == w.(closed := [w.books], now := 1)
  {
    w' := Takes(w, Close(1, 1));
  }

  function Settings(delay: u64): Config {
    Config(delay, 10, 0, 10, 5, 5)
  }

  lemma Opens(alice: Address, delay: u64) returns (w: World)
    ensures Reachable(w) && w == Start(0, 0).(admin := Some(alice), config := Some(Settings(delay)))
  {
    StartIsReachable(0, 0);
    w := Takes(Start(0, 0), Initialize(alice, Settings(delay)));
  }

  lemma Proposes(w: World, alice: Address, action: Action, delay: u64) returns (w': World)
    requires Reachable(w) && w.config == Some(Settings(delay)) && w.now == 0 && w.proposalCount == 0 && delay <= 1
    requires w.proposals == map[] && Power(w.books, alice) >= 0 && 0 <= Supply(w.books) <= 9
    ensures Reachable(w') && w' == w.(proposals := map[1 := Proposal(alice, action, delay, delay + 10, w.Sequence(),
                                                                     0, 0, 0, Pending, 0, 0)], proposalCount := 1)
  {
    w' := Takes(w, Propose(alice, action));
  }

  /** Tokens minted after the snapshot do vote: here five votes are counted
      although no token existed when the proposal was made. */
  lemma LateTokensVote(alice: Address, action: Action)
    ensures exists w :: Reachable(w) && w.Sequence() == 1 && Supply(w.closed[0]) == 0
                     && 1 in w.proposals && w.proposals[1].snapshot == 0 && w.proposals[1].forVotes == 5
  {
    PowerOfNobody(alice);
    var w := Opens(alice, 1);
    w := Proposes(w, alice, action, 1);
    w := Closes(w);
    w := Takes(w, Mint(alice, alice, 5));
    PowerAfterCredit(EMPTY, alice, 5, alice);
    assert VoteWeight(w, alice, 0) == 5;
    w := Takes(w, Call.Vote(alice, 1, For));
  }

  lemma MintsFive(w: World, alice: Address) returns (w': World)
    requires Reachable(w) && w.admin == Some(alice) && w.books == EMPTY
    ensures Reachable(w') && w' == w.(books := Credit(EMPTY, alice, 5))
    ensures Supply(w'.books) == 5 && Power(w'.books, alice) == 5
  {
    PowerOfNobody(alice);
    PowerAfterCredit(EMPTY, alice, 5, alice);
    w' := Takes(w, Mint(alice, alice, 5));
  }

  lemma GivesFour(w: World, alice: Address, bob: Address) returns (w': World)
    requires Reachable(w) && w.books == Credit(EMPTY, alice, 5) && alice != bob
    ensures Reachable(w') && w' == w.(books := Move(w.books, alice, bob, 4))
    ensures Supply(w'.books) == 5 && Power(w'.books, alice) == 1 && Power(w'.books, bob) == 4
  {
    PowerOfNobody(alice);
    PowerOfNobody(bob);
    PowerAfterCredit(EMPTY, alice, 5, alice);
    PowerAfterCredit(EMPTY, alice, 5, bob);
    PowerAfterMove(w.books, alice, bob, 4, alice);
    PowerAfterMove(w.books, alice, bob, 4, bob);
    w' := Takes(w, Transfer(alice, bob, 4));
  }

  /** A vote for proposal 1 in the ledger in which it was made. */
  lemma Votes(w: World, voter: Address) returns (w': World)
    requires Reachable(w) && 1 in w.proposals && (1, voter) !in w.receipts
    requires var p := w.proposals[1];
      p.snapshot == w.Sequence() && p.startTime == w.now <= p.endTime && 0 <= p.forVotes <= 5
    requires 0 < Power(w.books, voter) <= 5
    ensures Reachable(w') && w'.books == w.books && w'.closed == w.closed && w'.now == w.now
    ensures w'.receipts == w.receipts[(1, voter) := Receipt(For, Power(w.books, voter))]
    ensures 1 in w'.proposals
         && w'.proposals[1] == w.proposals[1].(forVotes := w.proposals[1].forVotes + Power(w.books, voter),
                                               status := w'.proposals[1].status)
  {
    w' := Takes(w, Call.Vote(voter, 1, For));
  }

  lemma VotesFive(alice: Address, action: Action) returns (w: World)
    ensures Reachable(w) && w.books == Credit(EMPTY, alice, 5) && w.closed == [] && w.now == 0
    ensures w.receipts == map[(1, alice) := Receipt(For, 5)] && 1 in w.proposals
    ensures var p := w.proposals[1]; p.snapshot == p.startTime == 0 && p.endTime == 10 && p.forVotes == 5
  {
    w := Opens(alice, 0);
    w := MintsFive(w, alice);
    w := Proposes(w, alice, action, 0);
    w := Votes(w, alice);
  }

  /** Without a voting delay the same tokens vote twice in the snapshot ledger:
      five tokens give nine votes, and the first voter is left with a power of one
      at the snapshot. */
  lemma TokensVoteTwice(alice: Address, bob: Address, action: Action)
    requires alice != bob
    ensures exists w :: Reachable(w) && w.Sequence() == 1 && Supply(w.closed[0]) == 5
                     && 1 in w.proposals && w.proposals[1].snapshot == 0 && w.proposals[1].forVotes == 9
                     && (1, alice) in w.receipts && w.receipts[(1, alice)].weight == 5
                     && Power(w.closed[0], alice) == 1
  {
    var w := VotesFive(alice, action);
    w := GivesFour(w, alice, bob);
    w := Votes(w, bob);
    w := Closes(w);
  }
}
