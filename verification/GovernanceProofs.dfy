/** What holds of the governance token over every run. */
module GovernanceProofs {
  import opened Host
  import Runs
  import opened Sums
  import opened VotingBooks
  import opened Governance

  // ---- Every step keeps the invariant ----

  lemma BooksStep(w: World, c: Call)
    requires BooksSound(w)
    ensures BooksSound(Step(w, c))
  {
    match c
    case Mint(caller, to, amount) => CreditSound(w.books, to, amount);
    case Burn(from, amount) => DebitSound(w.books, from, amount);
    case Transfer(from, to, amount) => MoveSound(w.books, from, to, amount);
    case TransferFrom(spender, from, to, amount) => MoveSound(w.books, from, to, amount);
    case _ =>
  }

  lemma CreditSound(b: Books, a: Address, amount: int)
    requires Sound(b)
    ensures amount >= 0 && Supply(b) + amount <= I128_MAX ==> Sound(Credit(b, a, amount))
  {
    PowerAfterCredit(b, a, amount, a);
  }

  lemma DebitSound(b: Books, a: Address, amount: int)
    requires Sound(b)
    ensures 0 <= amount <= Get(b.balances, a) ==> Sound(Debit(b, a, amount))
  {
    PowerAfterDebit(b, a, amount, a);
  }

  lemma MoveSound(b: Books, from: Address, to: Address, amount: int)
    requires Sound(b)
    ensures 0 <= amount <= Get(b.balances, from) ==> Sound(Move(b, from, to, amount))
  {
    PowerAfterMove(b, from, to, amount, from);
  }

  /** Steps that touch neither proposals nor votes, and at most close ledgers. */
  ghost predicate LeavesBallots(w: World, w': World) {
    && w'.proposals == w.proposals && w'.proposalCount == w.proposalCount
    && w'.receipts == w.receipts && w'.castAt == w.castAt
    && w'.executions == w.executions
    && (w.config.Some? ==> w'.config == w.config)
    && w.closed <= w'.closed && w.now <= w'.now && (w'.closed == w.closed ==> w'.now == w.now)
  }

  lemma BallotsUntouched(w: World, w': World)
    requires VotesSound(w) && ProposalsSound(w) && LeavesBallots(w, w')
    ensures VotesSound(w') && ProposalsSound(w')
  {
    forall id | id in w'.proposals ensures TalliesSound(w', id) {
      assert TalliesSound(w, id);
    }
    forall k | k in w'.receipts ensures VoteSound(w', k) {
      assert VoteSound(w, k);
    }
    forall id | id in w'.proposals ensures ProposalSound(w', id) {
      assert ProposalSound(w, id);
    }
  }

  lemma GroupAfterVote(w: World, w': World, k: Ballot, r: Receipt, id: nat, t: VoteType)
    requires k !in w.receipts && w'.receipts == w.receipts[k := r]
    ensures var before := Group(Weights(w), Boxes(w), (id, t));
      Group(Weights(w'), Boxes(w'), (id, t))
      == if k.0 == id && r.voteType == t then before[k := r.weight] else before
  {
  }

  /** Recording one more receipt raises the matching tally by its weight. */
  lemma TallyAfterVote(w: World, w': World, k: Ballot, r: Receipt, id: nat, t: VoteType)
    requires k !in w.receipts && w'.receipts == w.receipts[k := r]
    ensures Tally(w', id, t) == Tally(w, id, t) + if k.0 == id && r.voteType == t then r.weight else 0
  {
    GroupAfterVote(w, w', k, r, id, t);
    TotalUpdate(Group(Weights(w), Boxes(w), (id, t)), k, r.weight);
  }

  lemma TallyWithoutVotes(w: World, id: nat, t: VoteType)
    requires forall k :: k in w.receipts ==> k.0 != id
    ensures Tally(w, id, t) == 0
  {
    assert Group(Weights(w), Boxes(w), (id, t)) == map[];
  }

  lemma NextIdIsFresh(w: World)
    requires ProposalsSound(w)
    ensures w.proposalCount + 1 !in w.proposals
  {
    assert w.proposalCount + 1 in w.proposals ==> ProposalSound(w, w.proposalCount + 1);
  }

  lemma ProposeKeeps(w: World, proposer: Address, action: Action)
    requires VotesSound(w) && ProposalsSound(w) && AfterPropose(w, proposer, action).Some?
    ensures var w' := AfterPropose(w, proposer, action).value; VotesSound(w') && ProposalsSound(w')
  {
    var w' := AfterPropose(w, proposer, action).value;
    var id := w'.proposalCount;
    NextIdIsFresh(w);
    forall k | k in w'.receipts ensures VoteSound(w', k) && k.0 != id {
      assert VoteSound(w, k);
    }
    forall i | i in w'.proposals ensures TalliesSound(w', i) {
      if i == id {
        forall t ensures TallyOf(w'.proposals[i], t) == Tally(w', i, t) {
          TallyWithoutVotes(w', i, t);
        }
      } else {
        assert TalliesSound(w, i);
      }
    }
    forall i | i in w'.proposals ensures ProposalSound(w', i) {
      assert i != id ==> ProposalSound(w, i);
    }
    forall i | 0 <= i < |w'.executions| ensures ExecutionSound(w', w'.executions[i]) {
      assert ExecutionSound(w, w.executions[i]);
    }
  }

  lemma VoteKeepsReceipts(w: World, voter: Address, id: nat, t: VoteType)
    requires BooksSound(w) && VotesSound(w) && ProposalsSound(w) && AfterVote(w, voter, id, t).Some?
    ensures var w' := AfterVote(w, voter, id, t).value;
      forall k :: k in w'.receipts ==> VoteSound(w', k)
  {
    var w' := AfterVote(w, voter, id, t).value;
    forall k | k in w'.receipts ensures VoteSound(w', k) {
      if k == (id, voter) {
        var s := w.proposals[id].snapshot;
        assert ProposalSound(w, id);
        PowerBounds(w.books, voter);
        if s < w.Sequence() { PowerBounds(w.closed[s], voter); }
      } else {
        assert VoteSound(w, k);
      }
    }
  }

  lemma VoteKeepsTallies(w: World, voter: Address, id: nat, t: VoteType)
    requires VotesSound(w) && AfterVote(w, voter, id, t).Some?
    ensures var w' := AfterVote(w, voter, id, t).value;
      forall i :: i in w'.proposals ==> TalliesSound(w', i)
  {
    var w' := AfterVote(w, voter, id, t).value;
    var r := w'.receipts[(id, voter)];
    forall i | i in w'.proposals ensures TalliesSound(w', i) {
      assert TalliesSound(w, i);
      forall u ensures TallyOf(w'.proposals[i], u) == Tally(w', i, u) {
        TallyAfterVote(w, w', (id, voter), r, i, u);
      }
    }
  }

  lemma VoteKeepsProposals(w: World, voter: Address, id: nat, t: VoteType)
    requires ProposalsSound(w) && AfterVote(w, voter, id, t).Some?
    ensures ProposalsSound(AfterVote(w, voter, id, t).value)
  {
    var w' := AfterVote(w, voter, id, t).value;
    assert ProposalSound(w, id);
    forall i | i in w'.proposals ensures ProposalSound(w', i) {
      assert ProposalSound(w, i);
    }
    forall i | 0 <= i < |w'.executions| ensures ExecutionSound(w', w'.executions[i]) {
      assert ExecutionSound(w, w.executions[i]);
    }
  }

  /** A step that only rewrites the status and eta of one proposal. */
  ghost predicate Restates(w: World, w': World, id: nat, p': Proposal) {
    && id in w.proposals
    && w'.proposals == w.proposals[id := p']
    && p' == w.proposals[id].(status := p'.status, eta := p'.eta)
    && w'.receipts == w.receipts && w'.castAt == w.castAt
    && w'.closed == w.closed && w'.config == w.config
  }

  lemma RestatingKeepsVotes(w: World, w': World, id: nat, p': Proposal)
    requires VotesSound(w) && Restates(w, w', id, p')
    ensures VotesSound(w')
  {
    forall k | k in w'.receipts ensures VoteSound(w', k) {
      assert VoteSound(w, k);
    }
    forall i | i in w'.proposals ensures TalliesSound(w', i) {
      assert TalliesSound(w, i);
      forall t ensures TallyOf(w'.proposals[i], t) == Tally(w', i, t) {
        assert Tally(w', i, t) == Tally(w, i, t);
      }
    }
  }

  /** Queueing or cancelling, which need a proposal that never executed. */
  lemma RestatingKeepsProposals(w: World, w': World, id: nat, p': Proposal)
    requires ProposalsSound(w) && Restates(w, w', id, p') && ProposalSound(w', id)
    requires w.proposals[id].status != Executed && p'.status != Executed
    requires w' == w.(proposals := w'.proposals)
    ensures ProposalsSound(w')
  {
    forall i | i in w'.proposals ensures ProposalSound(w', i) {
      assert ProposalSound(w, i);
    }
    forall i | 0 <= i < |w'.executions| ensures ExecutionSound(w', w'.executions[i]) {
      assert ExecutionSound(w, w.executions[i]);
    }
  }

  lemma ExecuteKeeps(w: World, id: nat)
    requires ProposalsSound(w) && AfterExecute(w, id, true).Some?
    ensures ProposalsSound(AfterExecute(w, id, true).value)
  {
    var w' := AfterExecute(w, id, true).value;
    forall i | 0 <= i < |w'.executions|
      ensures ExecutionSound(w', w'.executions[i])
      ensures i < |w.executions| ==> w.executions[i].id != id
    {
      if i < |w.executions| { assert ExecutionSound(w, w.executions[i]); }
    }
    assert w'.executions[|w.executions|].id == id;
    forall i | i in w'.proposals ensures ProposalSound(w', i) {
      assert ProposalSound(w, i);
      if i != id && w'.proposals[i].status == Executed {
        var j :| 0 <= j < |w.executions| && w.executions[j].id == i;
        assert w'.executions[j].id == i;
      }
    }
  }

  lemma StepKeepsInvariant(w: World, c: Call)
    requires Inv(w)
    ensures Inv(Step(w, c))
  {
    BooksStep(w, c);
    var w' := Step(w, c);
    if Next(w, c).Some? {
      match c
      case Propose(proposer, action) => ProposeKeeps(w, proposer, action);
      case Vote(voter, id, t) =>
        VoteKeepsReceipts(w, voter, id, t);
        VoteKeepsTallies(w, voter, id, t);
        VoteKeepsProposals(w, voter, id, t);
      case Queue(id) =>
        assert ProposalSound(w, id);
        RestatingKeepsVotes(w, w', id, w'.proposals[id]);
        RestatingKeepsProposals(w, w', id, w'.proposals[id]);
      case Execute(id, _) =>
        RestatingKeepsVotes(w, w', id, w'.proposals[id]);
        ExecuteKeeps(w, id);
      case Cancel(_, id) =>
        assert ProposalSound(w, id);
        RestatingKeepsVotes(w, w', id, w'.proposals[id]);
        RestatingKeepsProposals(w, w', id, w'.proposals[id]);
      case _ => BallotsUntouched(w, w');
    }
  }

  lemma StartIsSound(sequence: nat, time: nat)
    ensures Inv(Start(sequence, time))
  {
  }

  // ---- Reachable worlds ----

  /** Some run from a fresh contract ends in `w`. */
  ghost predicate Reachable(w: World) {
    exists sequence: nat, time: nat :: Runs.ReachableFrom(Step, Start(sequence, time), w)
  }

  lemma ReachableIsSound(w: World)
    requires Reachable(w)
    ensures Inv(w)
  {
    var sequence: nat, time: nat :| Runs.ReachableFrom(Step, Start(sequence, time), w);
    StartIsSound(sequence, time);
    forall v, c | Inv(v) ensures Inv(Step(v, c)) {
      StepKeepsInvariant(v, c);
    }
    Runs.ReachableKeeps(Step, Inv, Start(sequence, time), w);
  }

  lemma ReachableStep(w: World, c: Call)
    requires Reachable(w)
    ensures Reachable(Step(w, c))
  {
    var sequence: nat, time: nat :| Runs.ReachableFrom(Step, Start(sequence, time), w);
    Runs.ReachableNext(Step, Start(sequence, time), w, c);
  }

  lemma StartIsReachable(sequence: nat, time: nat)
    ensures Reachable(Start(sequence, time))
  {
    Runs.ReachableNow(Step, Start(sequence, time));
  }
}
