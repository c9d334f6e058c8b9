/** The governance token as a state machine over what its users can observe:
    balances, delegation choices, the books as they stood at the close of every
    past ledger, proposals and votes. There are no checkpoints and no stored
    voting power here; those are implementation, in GovernanceToken. */
module Governance {
  import opened Host
  import Runs
  import opened Sums
  import opened VotingBooks

  datatype Config = Config(
    votingDelay: u64, votingPeriod: u64, proposalThreshold: i128,
    quorumNumerator: u32, timelockDelay: u64, gracePeriod: u64)

  datatype Status = Pending | Active | Defeated | Succeeded | Queued | Executed | Canceled | Expired

  datatype VoteType = For | Against | Abstain

  /** The contract, function and arguments a proposal wants invoked. */
  datatype Action = Action(target: Address, payload: nat)

  datatype Proposal = Proposal(
    proposer: Address, action: Action, startTime: nat, endTime: nat, snapshot: nat,
    forVotes: int, againstVotes: int, abstainVotes: int,
    status: Status, quorum: int, eta: nat)

  datatype Receipt = Receipt(voteType: VoteType, weight: int)

  /** An invocation the contract made on behalf of a proposal. */
  datatype Execution = Execution(id: nat, action: Action, at: nat)

  type Ballot = (nat, Address)

  datatype World = World(
    admin: Option<Address>,
    config: Option<Config>,
    books: Books,
    closed: seq<Books>,          // closed[s]: the books at the close of ledger s
    now: nat,
    proposals: map<nat, Proposal>,
    proposalCount: nat,
    receipts: map<Ballot, Receipt>,
    castAt: map<Ballot, nat>,    // the ledger in which each vote was cast
    executions: seq<Execution>)
  {
    /** Every ledger before the current one is closed. */
    function Sequence(): nat { |closed| }
  }

  ghost function Start(sequence: nat, time: nat): World {
    World(None, None, EMPTY, seq(sequence, _ => EMPTY), time, map[], 0, map[], map[], [])
  }

  // ---- Token operations; None is a panic ----

  ghost function AfterInitialize(w: World, admin: Address, config: Config): Option<World> {
    if w.admin.Some? || config.quorumNumerator > 100 then None
    else Some(w.(admin := Some(admin), config := Some(config)))
  }

  ghost function AfterMint(w: World, caller: Address, to: Address, amount: int): Option<World> {
    if w.admin != Some(caller) || amount <= 0 || Supply(w.books) + amount > I128_MAX then None
    else Some(w.(books := Credit(w.books, to, amount)))
  }

  ghost function AfterBurn(w: World, from: Address, amount: int): Option<World> {
    if amount <= 0 || Get(w.books.balances, from) < amount then None
    else Some(w.(books := Debit(w.books, from, amount)))
  }

  ghost function AfterTransfer(w: World, from: Address, to: Address, amount: int): Option<World> {
    if amount <= 0 || Get(w.books.balances, from) < amount then None
    else Some(w.(books := Move(w.books, from, to, amount)))
  }

  ghost function AfterApprove(w: World, owner: Address, spender: Address, amount: int): Option<World> {
    if amount < 0 then None
    else Some(w.(books := w.books.(allowances := w.books.allowances[(owner, spender) := amount])))
  }

  ghost function AfterTransferFrom(w: World, spender: Address, from: Address, to: Address, amount: int): Option<World> {
    var allowed := Get(w.books.allowances, (from, spender));
    if amount <= 0 || allowed < amount || Get(w.books.balances, from) < amount then None
    else
      var moved := Move(w.books, from, to, amount);
      Some(w.(books := moved.(allowances := moved.allowances[(from, spender) := allowed - amount])))
  }

  ghost function AfterDelegate(w: World, delegator: Address, delegatee: Address): World {
    if DelegateOf(w.books.delegates, delegator) == delegatee then w
    else w.(books := SetDelegate(w.books, delegator, delegatee))
  }

  /** Ledgers close one by one; only the last one may have seen changes. Time
      stands still within a ledger. */
  ghost function AfterClose(w: World, sequence: nat, time: nat): Option<World> {
    if sequence < w.Sequence() || time < w.now || (sequence == w.Sequence() && time != w.now) then None
    else Some(w.(closed := w.closed + seq(sequence - w.Sequence(), _ => w.books), now := time))
  }

  // ---- Proposals ----

  ghost function PowerAt(w: World, account: Address, sequence: nat): int {
    if sequence < w.Sequence() then Power(w.closed[sequence], account) else Power(w.books, account)
  }

  ghost function AfterPropose(w: World, proposer: Address, action: Action): Option<World> {
    if w.config.None? then None else
      var config := w.config.value;
      var start := w.now + config.votingDelay;
      var end := start + config.votingPeriod;
      var scaled := Supply(w.books) * config.quorumNumerator;
      if Power(w.books, proposer) < config.proposalThreshold
         || w.proposalCount == U64_MAX || end > U64_MAX || scaled > I128_MAX then None
      else
        var id := w.proposalCount + 1;
        var p := Proposal(proposer, action, start, end, w.Sequence(), 0, 0, 0, Pending, scaled / 100, 0);
        Some(w.(proposals := w.proposals[id := p], proposalCount := id))
  }

  /** The snapshot power, or the current power when that is zero. */
  ghost function VoteWeight(w: World, voter: Address, snapshot: nat): int {
    var atSnapshot := PowerAt(w, voter, snapshot);
    if atSnapshot == 0 then Power(w.books, voter) else atSnapshot
  }

  function TallyOf(p: Proposal, t: VoteType): int {
    match t case For => p.forVotes case Against => p.againstVotes case Abstain => p.abstainVotes
  }

  function Counted(p: Proposal, t: VoteType, weight: int): Proposal {
    var p' := match t
      case For => p.(forVotes := p.forVotes + weight)
      case Against => p.(againstVotes := p.againstVotes + weight)
      case Abstain => p.(abstainVotes := p.abstainVotes + weight);
    if p.status == Pending then p'.(status := Active) else p'
  }

  ghost function AfterVote(w: World, voter: Address, id: nat, t: VoteType): Option<World> {
    if id !in w.proposals then None else
      var p := w.proposals[id];
      var weight := VoteWeight(w, voter, p.snapshot);
      if w.now < p.startTime || w.now > p.endTime || (id, voter) in w.receipts
         || weight == 0 || TallyOf(p, t) + weight > I128_MAX then None
      else Some(w.(proposals := w.proposals[id := Counted(p, t, weight)],
                   receipts := w.receipts[(id, voter) := Receipt(t, weight)],
                   castAt := w.castAt[(id, voter) := w.Sequence()]))
  }

  /** A defeated proposal makes the call panic, which undoes the status write. */
  ghost function AfterQueue(w: World, id: nat): Option<World> {
    if id !in w.proposals || w.config.None? then None else
      var p := w.proposals[id];
      var total := p.forVotes + p.againstVotes + p.abstainVotes;
      var eta := w.now + w.config.value.timelockDelay;
      if w.now <= p.endTime || (p.status != Pending && p.status != Active)
         || total > I128_MAX || total < p.quorum || p.forVotes <= p.againstVotes || eta > U64_MAX then None
      else Some(w.(proposals := w.proposals[id := p.(status := Queued, eta := eta)]))
  }

  ghost function AfterExecute(w: World, id: nat, calleeSucceeds: bool): Option<World> {
    if id !in w.proposals || w.config.None? then None else
      var p := w.proposals[id];
      var deadline := p.eta + w.config.value.gracePeriod;
      if p.status != Queued || w.now < p.eta || deadline > U64_MAX || w.now > deadline || !calleeSucceeds then None
      else Some(w.(proposals := w.proposals[id := p.(status := Executed)],
                   executions := w.executions + [Execution(id, p.action, w.now)]))
  }

  ghost function AfterCancel(w: World, proposer: Address, id: nat): Option<World> {
    if id !in w.proposals then None else
      var p := w.proposals[id];
      if p.proposer != proposer || w.now >= p.startTime then None
      else Some(w.(proposals := w.proposals[id := p.(status := Canceled)]))
  }

  // ---- Runs ----

  datatype Call =
    | Initialize(admin: Address, config: Config)
    | Mint(caller: Address, to: Address, amount: i128)
    | Burn(from: Address, amount: i128)
    | Transfer(from: Address, to: Address, amount: i128)
    | Approve(owner: Address, spender: Address, amount: i128)
    | TransferFrom(spender: Address, from: Address, to: Address, amount: i128)
    | Delegate(delegator: Address, delegatee: Address)
    | Propose(proposer: Address, action: Action)
    | Vote(voter: Address, id: nat, voteType: VoteType)
    | Queue(id: nat)
    | Execute(id: nat, calleeSucceeds: bool)
    | Cancel(proposer: Address, id: nat)
    | Close(sequence: nat, time: nat)

  ghost function Next(w: World, c: Call): Option<World> {
    match c
    case Initialize(admin, config) => AfterInitialize(w, admin, config)
    case Mint(caller, to, amount) => AfterMint(w, caller, to, amount)
    case Burn(from, amount) => AfterBurn(w, from, amount)
    case Transfer(from, to, amount) => AfterTransfer(w, from, to, amount)
    case Approve(owner, spender, amount) => AfterApprove(w, owner, spender, amount)
    case TransferFrom(spender, from, to, amount) => AfterTransferFrom(w, spender, from, to, amount)
    case Delegate(delegator, delegatee) => Some(AfterDelegate(w, delegator, delegatee))
    case Propose(proposer, action) => AfterPropose(w, proposer, action)
    case Vote(voter, id, t) => AfterVote(w, voter, id, t)
    case Queue(id) => AfterQueue(w, id)
    case Execute(id, ok) => AfterExecute(w, id, ok)
    case Cancel(proposer, id) => AfterCancel(w, proposer, id)
    case Close(sequence, time) => AfterClose(w, sequence, time)
  }

  ghost function Step(w: World, c: Call): World {
    match Next(w, c) case Some(w') => w' case None => w
  }

  ghost function Run(w: World, calls: seq<Call>): World
  {
    Runs.Run(Step, w, calls)
  }

  // ---- The invariant ----

  ghost function Weights(w: World): map<Ballot, int> {
    map k | k in w.receipts :: w.receipts[k].weight
  }

  ghost function Boxes(w: World): map<Ballot, (nat, VoteType)> {
    map k | k in w.receipts :: (k.0, w.receipts[k].voteType)
  }

  /** The sum of the receipts cast on proposal `id` with vote `t`. */
  ghost function Tally(w: World, id: nat, t: VoteType): int {
    Total(Group(Weights(w), Boxes(w), (id, t)))
  }

  /** The vote was cast after the snapshot ledger had closed, by an account
      that had power when it closed. */
  ghost predicate CastFromSnapshot(w: World, k: Ballot)
    requires k in w.receipts && k in w.castAt && k.0 in w.proposals
  {
    var s := w.proposals[k.0].snapshot;
    s < w.castAt[k] <= w.Sequence() && Power(w.closed[s], k.1) != 0
  }

  ghost predicate VoteSound(w: World, k: Ballot)
    requires k in w.receipts
  {
    && k in w.castAt && k.0 in w.proposals
    && w.proposals[k.0].snapshot <= w.castAt[k] <= w.Sequence()
    && w.config.Some? && (w.proposals[k.0].snapshot == w.castAt[k] ==> w.config.value.votingDelay == 0)
    && w.receipts[k].weight > 0
    && (CastFromSnapshot(w, k) ==> w.receipts[k].weight == Power(w.closed[w.proposals[k.0].snapshot], k.1))
  }

  ghost predicate Settled(p: Proposal, config: Config, now: nat) {
    && p.eta > p.endTime + config.timelockDelay
    && p.eta <= now + config.timelockDelay
    && p.forVotes > p.againstVotes
    && p.forVotes + p.againstVotes + p.abstainVotes >= p.quorum
  }

  ghost predicate ProposalSound(w: World, id: nat)
    requires id in w.proposals
  {
    var p := w.proposals[id];
    && 1 <= id <= w.proposalCount
    && w.config.Some?
    && p.snapshot <= w.Sequence()
    && (p.snapshot == w.Sequence() ==> p.startTime == w.now + w.config.value.votingDelay)
    && p.startTime <= p.endTime
    && (p.status == Pending || p.status == Active || p.status == Canceled || p.status == Queued || p.status == Executed)
    && (p.status == Queued || p.status == Executed ==> Settled(p, w.config.value, w.now))
    && (p.status == Executed ==> exists i :: 0 <= i < |w.executions| && w.executions[i].id == id)
  }

  ghost predicate TalliesSound(w: World, id: nat)
    requires id in w.proposals
  {
    forall t :: TallyOf(w.proposals[id], t) == Tally(w, id, t)
  }

  ghost predicate ExecutionSound(w: World, e: Execution) {
    && e.id in w.proposals && w.config.Some?
    && var p := w.proposals[e.id];
       && p.status == Executed && e.action == p.action
       && p.eta <= e.at <= p.eta + w.config.value.gracePeriod && e.at <= w.now
  }

  ghost predicate VotesSound(w: World) {
    && (forall k :: k in w.receipts ==> VoteSound(w, k))
    && (forall id :: id in w.proposals ==> TalliesSound(w, id))
  }

  ghost predicate ProposalsSound(w: World) {
    && (forall id :: id in w.proposals ==> ProposalSound(w, id))
    && (forall i :: 0 <= i < |w.executions| ==> ExecutionSound(w, w.executions[i]))
    && (forall i, j :: 0 <= i < j < |w.executions| ==> w.executions[i].id != w.executions[j].id)
  }

  ghost predicate BooksSound(w: World) {
    && Sound(w.books)
    && (w.admin.None? <==> w.config.None?)
    && (w.admin.None? ==> w.books.balances == map[])
    && (forall s :: 0 <= s < |w.closed| ==> Sound(w.closed[s]))
  }

  ghost predicate Inv(w: World) {
    BooksSound(w) && VotesSound(w) && ProposalsSound(w)
  }
}
