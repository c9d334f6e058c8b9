/** The promises of the governance token, for every run from a fresh contract. */
module GovernanceTheorems {
  import opened Host
  import opened Sums
  import opened VotingBooks
  import opened Governance
  import opened GovernanceProofs

  // ---- History ----

  lemma {:induction false} HistoryIsPermanent(w: World, calls: seq<Call>)
    ensures w.closed <= Run(w, calls).closed
    ensures w.now <= Run(w, calls).now
    decreases |calls|
  {
    if calls != [] {
      HistoryIsPermanent(Step(w, calls[0]), calls[1..]);
    }
  }

  /** No later call changes what an account could vote with when ledger `s` closed. */
  lemma PastVotesNeverChange(w: World, calls: seq<Call>, a: Address, s: nat)
    requires s < w.Sequence()
    ensures s < Run(w, calls).Sequence() && PowerAt(Run(w, calls), a, s) == PowerAt(w, a, s)
  {
    HistoryIsPermanent(w, calls);
  }

  /** At the present and at the close of every past ledger, no group of accounts
      holds more votes than there are tokens, and the delegates together hold
      exactly the supply. */
  lemma VotesAreConserved(w: World, s: nat, accounts: set<Address>)
    requires Reachable(w)
    ensures var b := if s < w.Sequence() then w.closed[s] else w.books;
      && Total(map a | a in accounts :: PowerAt(w, a, s)) <= Supply(b) <= I128_MAX
      && (Covers(b, accounts) ==> Total(map a | a in accounts :: PowerAt(w, a, s)) == Supply(b))
  {
    ReachableIsSound(w);
    var b := if s < w.Sequence() then w.closed[s] else w.books;
    PowerIsConserved(b, accounts);
    assert (map a | a in accounts :: PowerAt(w, a, s)) == Powers(b, accounts);
  }

  // ---- Tallies ----

  /** Each tally is the sum of the receipts of its type; there is one receipt
      per voter because receipts are keyed by proposal and voter. */
  lemma TalliesAreReceipts(w: World, id: nat, t: VoteType)
    requires Reachable(w) && id in w.proposals
    ensures TallyOf(w.proposals[id], t)
         == Total(map k | k in w.receipts && k.0 == id && w.receipts[k].voteType == t :: w.receipts[k].weight)
  {
    ReachableIsSound(w);
    assert TalliesSound(w, id);
    GroupIsReceipts(w, id, t);
  }

  lemma GroupIsReceipts(w: World, id: nat, t: VoteType)
    ensures Group(Weights(w), Boxes(w), (id, t))
         == map k | k in w.receipts && k.0 == id && w.receipts[k].voteType == t :: w.receipts[k].weight
  {
  }

  /** The weights of the votes on `id` that were cast after its snapshot ledger
      closed, by accounts that had power when it closed. */
  ghost function SnapshotVotes(w: World, id: nat): map<Ballot, int> {
    map k | k in w.receipts && k.0 == id && k in w.castAt && id in w.proposals
            && w.proposals[id].snapshot < w.castAt[k] <= w.Sequence()
            && Power(w.closed[w.proposals[id].snapshot], k.1) != 0
      :: w.receipts[k].weight
  }

  /** Votes of distinct accounts on one proposal, each weighing the account's
      power in `b`, weigh as much as those accounts together. */
  lemma {:induction false} DistinctVoters(m: map<Ballot, int>, id: nat, b: Books)
    requires forall k :: k in m ==> k.0 == id && m[k] == Power(b, k.1)
    ensures Total(m) == Total(Powers(b, set k | k in m :: k.1))
    decreases |m|
  {
    var voters := set k | k in m :: k.1;
    if k :| k in m {
      var rest := m - {k};
      TotalSplit(m, k);
      DistinctVoters(rest, id, b);
      var others := set k' | k' in rest :: k'.1;
      assert others == voters - {k.1} by {
        forall k' | k' in rest ensures k'.1 != k.1 {
          assert k'.0 == k.0 && k' != k;
        }
      }
      TotalSplit(Powers(b, voters), k.1);
      assert Powers(b, voters) - {k.1} == Powers(b, others);
    } else {
      assert m == map[];
      assert Powers(b, voters) == map[];
    }
  }

  /** The votes taken from the snapshot never outweigh the tokens that existed
      when the snapshot ledger closed, whatever was minted or moved later. */
  lemma SnapshotVotesAreBounded(w: World, id: nat)
    requires Reachable(w) && id in w.proposals && w.proposals[id].snapshot < w.Sequence()
    ensures Total(SnapshotVotes(w, id)) <= Supply(w.closed[w.proposals[id].snapshot])
  {
    ReachableIsSound(w);
    var b := w.closed[w.proposals[id].snapshot];
    var m := SnapshotVotes(w, id);
    forall k | k in m ensures k.0 == id && m[k] == Power(b, k.1) {
      assert VoteSound(w, k);
    }
    DistinctVoters(m, id, b);
    PowerIsConserved(b, set k | k in m :: k.1);
  }

  /** All votes on `id` by accounts that had power when its snapshot ledger closed. */
  ghost function VotesWithSnapshot(w: World, id: nat): map<Ballot, int>
    requires id in w.proposals && w.proposals[id].snapshot < w.Sequence()
  {
    map k | k in w.receipts && k.0 == id && Power(w.closed[w.proposals[id].snapshot], k.1) != 0
      :: w.receipts[k].weight
  }

  /** With a voting delay the bound covers every vote of such an account. */
  lemma DelayedVotesAreBounded(w: World, id: nat)
    requires Reachable(w) && id in w.proposals && w.proposals[id].snapshot < w.Sequence()
    requires w.config.Some? && w.config.value.votingDelay > 0
    ensures Total(VotesWithSnapshot(w, id)) <= Supply(w.closed[w.proposals[id].snapshot])
  {
    assert VotesWithSnapshot(w, id) == SnapshotVotes(w, id) by {
      forall k | k in w.receipts && k.0 == id
        ensures k in w.castAt && w.proposals[id].snapshot < w.castAt[k] <= w.Sequence()
      {
        DelayedVotesComeLater(w, k);
      }
    }
    SnapshotVotesAreBounded(w, id);
  }

  /** So does the tally, if all voters had power at the snapshot. */
  lemma DelayedTallyIsBounded(w: World, id: nat)
    requires Reachable(w) && id in w.proposals && w.proposals[id].snapshot < w.Sequence()
    requires w.config.Some? && w.config.value.votingDelay > 0
    requires forall k :: k in w.receipts && k.0 == id ==> Power(w.closed[w.proposals[id].snapshot], k.1) != 0
    ensures var p := w.proposals[id];
      p.forVotes + p.againstVotes + p.abstainVotes <= Supply(w.closed[p.snapshot])
  {
    DelayedVotesAreBounded(w, id);
    TallySum(w, id);
    assert VotesWithSnapshot(w, id) == VotesOn(w, id);
  }

  ghost function VotesOn(w: World, id: nat): map<Ballot, int> {
    map k | k in w.receipts && k.0 == id :: w.receipts[k].weight
  }

  /** The three tallies together are all votes. */
  lemma TallySum(w: World, id: nat)
    requires Reachable(w) && id in w.proposals
    ensures var p := w.proposals[id]; p.forVotes + p.againstVotes + p.abstainVotes == Total(VotesOn(w, id))
  {
    assert TalliesSound(w, id) by { ReachableIsSound(w); }
    var boxes := {(id, For), (id, Against), (id, Abstain)};
    GroupsPartition(Weights(w), Boxes(w), boxes);
    assert Groups(Weights(w), Boxes(w), boxes) == VotesOn(w, id) by {
      forall t: VoteType ensures (id, t) in boxes {
        match t case For => case Against => case Abstain =>
      }
    }
    SumOfThree(GroupTotals(Weights(w), Boxes(w), boxes), (id, For), (id, Against), (id, Abstain));
    var p := w.proposals[id];
    assert TallyOf(p, For) == Tally(w, id, For) && TallyOf(p, Against) == Tally(w, id, Against)
           && TallyOf(p, Abstain) == Tally(w, id, Abstain);
  }

  lemma SumOfThree<K>(m: map<K, int>, a: K, b: K, c: K)
    requires m.Keys == {a, b, c} && a != b && a != c && b != c
    ensures Total(m) == m[a] + m[b] + m[c]
  {
    TotalSplit(m, a);
    TotalSplit(m - {a}, b);
    TotalSplit(m - {a} - {b}, c);
    assert m - {a} - {b} - {c} == map[];
  }

  // ---- The documented snapshot rule, and where the code departs from it ----

  /** Votes are cast in the snapshot ledger or later, and with a voting delay
      always later. */
  lemma DelayedVotesComeLater(w: World, k: Ballot)
    requires Reachable(w) && k in w.receipts
    ensures k.0 in w.proposals && k in w.castAt && w.proposals[k.0].snapshot <= w.castAt[k] <= w.Sequence()
    ensures w.config.Some? && (w.config.value.votingDelay > 0 ==> w.proposals[k.0].snapshot < w.castAt[k])
  {
    ReachableIsSound(w);
    assert VoteSound(w, k);
  }

  /** A vote cast after the snapshot ledger, which with a voting delay is every
      vote, weighs the voter's power at the snapshot exactly when that power is
      not zero. */
  lemma WeightIsSnapshotPower(w: World, k: Ballot)
    requires Reachable(w) && k in w.receipts
    ensures k.0 in w.proposals && k in w.castAt && w.castAt[k] <= w.Sequence() && w.config.Some?
    ensures var s := w.proposals[k.0].snapshot;
      w.castAt[k] > s || w.config.value.votingDelay > 0 ==>
        s < w.Sequence() && (w.receipts[k].weight == Power(w.closed[s], k.1) <==> Power(w.closed[s], k.1) != 0)
  {
    ReachableIsSound(w);
    assert VoteSound(w, k);
  }

  lemma {:induction false} ReceiptsStay(w: World, calls: seq<Call>, k: Ballot)
    requires Reachable(w) && k in w.receipts
    ensures k in Run(w, calls).receipts && Run(w, calls).receipts[k] == w.receipts[k]
    decreases |calls|
  {
    if calls != [] {
      ReachableStep(w, calls[0]);
      ReceiptsStay(Step(w, calls[0]), calls[1..], k);
    }
  }

  /** A vote in the snapshot ledger itself, which takes a voting delay of zero,
      weighs the voter's power at that moment. That is the power at the snapshot
      exactly if the ledger closes with the voter's power the same. */
  lemma SameLedgerWeightIff(w: World, voter: Address, id: nat, t: VoteType, calls: seq<Call>)
    requires Reachable(w) && Next(w, Call.Vote(voter, id, t)).Some?
    requires w.proposals[id].snapshot == w.Sequence()
    requires var v := Run(Step(w, Call.Vote(voter, id, t)), calls); v.Sequence() > w.Sequence()
    ensures w.config.Some? && w.config.value.votingDelay == 0
    ensures var s, v := w.Sequence(), Run(Step(w, Call.Vote(voter, id, t)), calls);
      && (id, voter) in v.receipts && id in v.proposals && v.proposals[id].snapshot == s
      && v.receipts[(id, voter)].weight == Power(w.books, voter)
      && (v.receipts[(id, voter)].weight == Power(v.closed[s], voter) <==>
            Power(v.closed[s], voter) == Power(w.books, voter))
  {
    var w' := Step(w, Call.Vote(voter, id, t));
    ReachableStep(w, Call.Vote(voter, id, t));
    DelayedVotesComeLater(w', (id, voter));
    ReceiptsStay(w', calls, (id, voter));
    ProposalsSettle(w', calls, id);
  }

  // ---- Proposal lifecycle ----

  /** What may happen to an existing proposal in the rest of a run. */
  ghost predicate Evolves(p: Proposal, p': Proposal) {
    && p'.proposer == p.proposer && p'.action == p.action && p'.quorum == p.quorum
    && p'.startTime == p.startTime && p'.endTime == p.endTime && p'.snapshot == p.snapshot
    && (p.status == Executed ==> p' == p)
    && (p.status == Canceled ==> p'.status == Canceled)
    && (p.status == Queued ==> p' == p || p' == p.(status := Executed))
    && p'.status != Defeated && p'.status != Expired && p'.status != Succeeded
  }

  /** The part of the invariant that keeps votes, cancellation and queueing apart. */
  ghost predicate Timely(p: Proposal, now: nat) {
    && p.startTime <= p.endTime
    && (p.status == Queued || p.status == Executed ==> p.endTime < now)
    && p.status != Defeated && p.status != Expired && p.status != Succeeded
  }

  lemma OthersKeepProposals(w: World, c: Call)
    requires !c.Vote? && !c.Queue? && !c.Execute? && !c.Cancel? && !c.Propose?
    ensures Step(w, c).proposals == w.proposals
  {
  }

  lemma VoteEvolves(w: World, voter: Address, i: nat, t: VoteType, id: nat)
    requires id in w.proposals && Timely(w.proposals[id], w.now) && AfterVote(w, voter, i, t).Some?
    ensures var w' := AfterVote(w, voter, i, t).value;
      id in w'.proposals && Evolves(w.proposals[id], w'.proposals[id])
  {
  }

  lemma SettlingEvolves(w: World, c: Call, id: nat)
    requires id in w.proposals && Timely(w.proposals[id], w.now) && (c.Queue? || c.Execute? || c.Cancel?)
    ensures id in Step(w, c).proposals && Evolves(w.proposals[id], Step(w, c).proposals[id])
  {
  }

  lemma StepEvolves(w: World, c: Call, id: nat)
    requires id in w.proposals && Timely(w.proposals[id], w.now)
    requires w.proposalCount + 1 !in w.proposals
    ensures id in Step(w, c).proposals && Evolves(w.proposals[id], Step(w, c).proposals[id])
  {
    match c
    case Vote(voter, i, t) => if Next(w, c).Some? { VoteEvolves(w, voter, i, t, id); }
    case Queue(_) => SettlingEvolves(w, c, id);
    case Execute(_, _) => SettlingEvolves(w, c, id);
    case Cancel(_, _) => SettlingEvolves(w, c, id);
    case Propose(_, _) =>
    case _ => OthersKeepProposals(w, c);
  }

  /** Executed proposals never change again, cancelled ones stay cancelled,
      queued ones keep their tallies and can only become executed. The statuses
      Defeated, Expired and Succeeded are never stored. */
  lemma {:induction false} ProposalsSettle(w: World, calls: seq<Call>, id: nat)
    requires Reachable(w) && id in w.proposals
    ensures id in Run(w, calls).proposals && Evolves(w.proposals[id], Run(w, calls).proposals[id])
    decreases |calls|
  {
    assert Timely(w.proposals[id], w.now) && w.proposalCount + 1 !in w.proposals by {
      ReachableIsSound(w);
      assert ProposalSound(w, id);
      NextIdIsFresh(w);
    }
    if calls != [] {
      StepEvolves(w, calls[0], id);
      ReachableStep(w, calls[0]);
      ProposalsSettle(Step(w, calls[0]), calls[1..], id);
    }
  }

  /** Every invocation ever made belongs to a proposal that was queued after its
      vote had ended, with a majority and a quorum, and it was made between the
      end of the timelock and the end of the grace period. No proposal is
      invoked twice, and exactly the executed ones are invoked. */
  lemma ExecutionsAreLawful(w: World)
    requires Reachable(w)
    ensures forall e :: e in w.executions ==> Lawful(w, e)
    ensures forall i, j :: 0 <= i < j < |w.executions| ==> w.executions[i].id != w.executions[j].id
    ensures forall id :: id in w.proposals && w.proposals[id].status == Executed ==>
      exists e :: e in w.executions && e.id == id
  {
    ReachableIsSound(w);
    forall e | e in w.executions ensures Lawful(w, e) {
      var i :| 0 <= i < |w.executions| && w.executions[i] == e;
      assert ExecutionSound(w, w.executions[i]);
      assert ProposalSound(w, e.id);
    }
    forall id | id in w.proposals && w.proposals[id].status == Executed
      ensures exists e :: e in w.executions && e.id == id
    {
      assert ProposalSound(w, id);
      var i :| 0 <= i < |w.executions| && w.executions[i].id == id;
      assert w.executions[i] in w.executions;
    }
  }

  ghost predicate Lawful(w: World, e: Execution) {
    && e.id in w.proposals && w.config.Some?
    && var p, c := w.proposals[e.id], w.config.value;
       var queuedAt := p.eta - c.timelockDelay;
       && p.status == Executed && e.action == p.action
       && p.startTime <= p.endTime < queuedAt
       && p.forVotes > p.againstVotes
       && p.forVotes + p.againstVotes + p.abstainVotes >= p.quorum
       && p.eta <= e.at <= p.eta + c.gracePeriod
       && e.at <= w.now
  }
}
