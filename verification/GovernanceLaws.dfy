/** What each accepted call of the governance token does, account by account, and
    when it is accepted: who pays, who is paid, whose power moves. */
module GovernanceLaws {
  import opened Host
  import opened Sums
  import opened VotingBooks
  import opened Governance

  /** Every balance is as before but for what `from` gives and what `to` gets. */
  ghost predicate Pays(b: Books, b': Books, from: Option<Address>, to: Option<Address>, amount: int) {
    forall h: Address ::
      Get(b'.balances, h) == Get(b.balances, h) - (if from == Some(h) then amount else 0)
                                                + (if to == Some(h) then amount else 0)
  }

  /** No allowance but that of `key` changes, and that one falls by `amount`. */
  ghost predicate Spends(b: Books, b': Books, key: (Address, Address), amount: int) {
    forall k :: Get(b'.allowances, k) == Get(b.allowances, k) - if k == key then amount else 0
  }

  ghost predicate OnlyBooks(w: World, w': World) {
    w' == w.(books := w'.books) && w'.books.delegates == w.books.delegates
  }

  lemma MintPays(w: World, caller: Address, to: Address, amount: i128)
    ensures var next := Next(w, Mint(caller, to, amount));
      && (next.Some? <==> w.admin == Some(caller) && amount > 0 && Total(w.books.balances) + amount <= I128_MAX)
      && (next.Some? ==>
            && OnlyBooks(w, next.value) && next.value.books.allowances == w.books.allowances
            && Pays(w.books, next.value.books, None, Some(to), amount))
  {
  }

  lemma BurnPays(w: World, from: Address, amount: i128)
    ensures var next := Next(w, Burn(from, amount));
      && (next.Some? <==> 0 < amount <= Get(w.books.balances, from))
      && (next.Some? ==>
            && OnlyBooks(w, next.value) && next.value.books.allowances == w.books.allowances
            && Pays(w.books, next.value.books, Some(from), None, amount))
  {
  }

  lemma TransferPays(w: World, from: Address, to: Address, amount: i128)
    ensures var next := Next(w, Transfer(from, to, amount));
      && (next.Some? <==> 0 < amount <= Get(w.books.balances, from))
      && (next.Some? ==>
            && OnlyBooks(w, next.value) && next.value.books.allowances == w.books.allowances
            && Pays(w.books, next.value.books, Some(from), Some(to), amount))
  {
  }

  /** The recipient gets what the holder loses, whoever spends; the spender loses
      that much of the holder's allowance and gets nothing. */
  lemma TransferFromPays(w: World, spender: Address, from: Address, to: Address, amount: i128)
    ensures var next := Next(w, TransferFrom(spender, from, to, amount));
      && (next.Some? <==> 0 < amount <= Get(w.books.balances, from)
                          && amount <= Get(w.books.allowances, (from, spender)))
      && (next.Some? ==>
            && OnlyBooks(w, next.value)
            && Pays(w.books, next.value.books, Some(from), Some(to), amount)
            && Spends(w.books, next.value.books, (from, spender), amount))
  {
  }

  lemma ApproveSets(w: World, owner: Address, spender: Address, amount: i128)
    ensures var next := Next(w, Approve(owner, spender, amount));
      && (next.Some? <==> amount >= 0)
      && (next.Some? ==>
            && OnlyBooks(w, next.value) && next.value.books.balances == w.books.balances
            && forall k :: Get(next.value.books.allowances, k)
                        == if k == (owner, spender) then amount else Get(w.books.allowances, k))
  {
  }

  function ChoiceOf(b: Books, h: Address): Address {
    if h in b.delegates then b.delegates[h] else h
  }

  /** The delegator's choice becomes the delegatee and nobody else's changes; what
      the delegator holds stops counting for the old choice and counts for the new. */
  lemma DelegateChooses(w: World, delegator: Address, delegatee: Address)
    ensures var w' := Step(w, Call.Delegate(delegator, delegatee));
      && w' == w.(books := w'.books)
      && w'.books.balances == w.books.balances && w'.books.allowances == w.books.allowances
      && (forall h :: ChoiceOf(w'.books, h) == if h == delegator then delegatee else ChoiceOf(w.books, h))
      && (forall a :: Power(w'.books, a) == Power(w.books, a)
            - (if ChoiceOf(w.books, delegator) == a then Get(w.books.balances, delegator) else 0)
            + (if delegatee == a then Get(w.books.balances, delegator) else 0))
  {
    forall a ensures Power(SetDelegate(w.books, delegator, delegatee), a) == Power(w.books, a)
            - (if ChoiceOf(w.books, delegator) == a then Get(w.books.balances, delegator) else 0)
            + (if delegatee == a then Get(w.books.balances, delegator) else 0)
    {
      PowerAfterSetDelegate(w.books, delegator, delegatee, a);
    }
  }

  // ---- Proposals ----

  /** Only proposal `id` is changed or added. */
  ghost predicate OnlyProposal(w: World, w': World, id: nat) {
    id in w'.proposals && w'.proposals == w.proposals[id := w'.proposals[id]]
  }

  lemma InitializeOnce(w: World, admin: Address, config: Config)
    ensures var next := Next(w, Initialize(admin, config));
      && (next.Some? <==> w.admin.None? && config.quorumNumerator <= 100)
      && (next.Some? ==> next.value == w.(admin := Some(admin), config := Some(config)))
  {
  }

  /** Who may propose, and what is stored: the window after the delay, the ledger of
      the proposal as snapshot, and the given percentage of the supply, rounded
      down, as quorum. */
  lemma ProposeStores(w: World, proposer: Address, action: Action)
    requires w.config.Some? && Total(w.books.balances) >= 0
    ensures var next, config, supply := Next(w, Propose(proposer, action)), w.config.value, Total(w.books.balances);
      && (next.Some? <==>
            Power(w.books, proposer) >= config.proposalThreshold && w.proposalCount != U64_MAX
            && w.now + config.votingDelay + config.votingPeriod <= U64_MAX
            && supply * config.quorumNumerator <= I128_MAX)
      && (next.Some? ==>
            var w', id := next.value, w.proposalCount + 1;
            && w' == w.(proposals := w'.proposals, proposalCount := id) && OnlyProposal(w, w', id)
            && var p := w'.proposals[id];
               && p.proposer == proposer && p.action == action && p.snapshot == |w.closed| && p.status == Pending
               && p.startTime == w.now + config.votingDelay && p.endTime - p.startTime == config.votingPeriod
               && p.forVotes == p.againstVotes == p.abstainVotes == 0 == p.eta
               && 100 * p.quorum <= supply * config.quorumNumerator < 100 * (p.quorum + 1))
  {
  }

  /** Who may vote, with what weight, and that it goes to the chosen tally. */
  lemma VoteCounts(w: World, voter: Address, id: nat, t: VoteType)
    requires id in w.proposals
    ensures var next, p := Next(w, Call.Vote(voter, id, t)), w.proposals[id];
      var past := Power(if p.snapshot < |w.closed| then w.closed[p.snapshot] else w.books, voter);
      var weight := if past == 0 then Power(w.books, voter) else past;
      var tally := if t == For then p.forVotes else if t == Against then p.againstVotes else p.abstainVotes;
      && (next.Some? <==> p.startTime <= w.now <= p.endTime && (id, voter) !in w.receipts && weight != 0
                          && tally + weight <= I128_MAX)
      && (next.Some? ==>
            var w' := next.value;
            && OnlyProposal(w, w', id) && w'.receipts == w.receipts[(id, voter) := Receipt(t, weight)]
            && w'.castAt == w.castAt[(id, voter) := |w.closed|]
            && w' == w.(proposals := w'.proposals, receipts := w'.receipts, castAt := w'.castAt)
            && var p' := w'.proposals[id];
               && p'.forVotes == p.forVotes + (if t == For then weight else 0)
               && p'.againstVotes == p.againstVotes + (if t == Against then weight else 0)
               && p'.abstainVotes == p.abstainVotes + (if t == Abstain then weight else 0)
               && p'.status == (if p.status == Pending then Active else p.status)
               && p' == p.(forVotes := p'.forVotes, againstVotes := p'.againstVotes,
                           abstainVotes := p'.abstainVotes, status := p'.status))
  {
  }

  /** An ended vote with a quorum and more for than against is queued for the end of
      the timelock, and nothing else is. */
  lemma QueueSchedules(w: World, id: nat)
    requires id in w.proposals && w.config.Some?
    ensures var next, p := Next(w, Call.Queue(id)), w.proposals[id];
      var votes, eta := p.forVotes + p.againstVotes + p.abstainVotes, w.now + w.config.value.timelockDelay;
      && (next.Some? <==> p.endTime < w.now && p.status in {Pending, Active} && p.forVotes > p.againstVotes
                          && p.quorum <= votes <= I128_MAX && eta <= U64_MAX)
      && (next.Some? ==>
            && next.value == w.(proposals := next.value.proposals) && OnlyProposal(w, next.value, id)
            && next.value.proposals[id] == p.(status := Queued, eta := eta))
  {
  }

  /** A queued proposal's own action is invoked, between the end of the timelock and
      the end of the grace period. */
  lemma ExecuteInvokes(w: World, id: nat, calleeSucceeds: bool)
    requires id in w.proposals && w.config.Some?
    ensures var next, p := Next(w, Call.Execute(id, calleeSucceeds)), w.proposals[id];
      var deadline := p.eta + w.config.value.gracePeriod;
      && (next.Some? <==> p.status == Queued && p.eta <= w.now <= deadline <= U64_MAX && calleeSucceeds)
      && (next.Some? ==>
            && OnlyProposal(w, next.value, id) && next.value.proposals[id] == p.(status := Executed)
            && |next.value.executions| == |w.executions| + 1 && w.executions <= next.value.executions
            && next.value.executions[|w.executions|] == Execution(id, p.action, w.now)
            && next.value == w.(proposals := next.value.proposals, executions := next.value.executions))
  {
  }

  /** Only its proposer cancels a proposal, and only before its vote starts. */
  lemma CancelStops(w: World, proposer: Address, id: nat)
    requires id in w.proposals
    ensures var next, p := Next(w, Call.Cancel(proposer, id)), w.proposals[id];
      && (next.Some? <==> p.proposer == proposer && w.now < p.startTime)
      && (next.Some? ==>
            && next.value == w.(proposals := next.value.proposals) && OnlyProposal(w, next.value, id)
            && next.value.proposals[id] == p.(status := Canceled))
  {
  }

  /** Calls about a proposal that does not exist, or before the contract is
      initialized, are refused. */
  lemma UnknownIsRefused(w: World, c: Call)
    ensures (c.Vote? || c.Queue? || c.Execute? || c.Cancel?) && c.id !in w.proposals ==> Next(w, c) == None
    ensures (c.Propose? || c.Queue? || c.Execute?) && w.config == None ==> Next(w, c) == None
  {
  }
}
