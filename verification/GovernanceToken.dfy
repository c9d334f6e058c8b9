/** The contract: storage maps updated in place, stored voting power and a
    checkpoint index that let a vote weight be read without any history. Every
    method is proved against the state machine of module Governance. */
module GovernanceToken {
  import opened Host
  import opened Sums
  import opened VotingBooks
  import opened Governance
  import opened GovernanceProofs
  import opened GovernanceLaws
  import opened Checkpoints

  /** The checkpoint list `c` of account `a` answers for every closed ledger. */
  ghost predicate Records(c: seq<Checkpoint>, num: int, closed: seq<Books>, a: Address) {
    && |c| == num
    && Chronological(c, |closed|)
    && (forall s :: 0 <= s < |closed| ==> Lookup(c, s) == Power(closed[s], a))
  }

  function CheckpointsOf(checkpoints: map<Address, seq<Checkpoint>>, a: Address): seq<Checkpoint> {
    if a in checkpoints then checkpoints[a] else []
  }

  /** Stored power is the latest checkpoint, and the index answers for the past. */
  ghost predicate Indexed(checkpoints: map<Address, seq<Checkpoint>>, num: map<Address, int>,
                          power: map<Address, int>, closed: seq<Books>) {
    forall a ::
      && Records(CheckpointsOf(checkpoints, a), Get(num, a), closed, a)
      && Latest(CheckpointsOf(checkpoints, a)) == Get(power, a)
  }

  lemma WrittenRecords(c: seq<Checkpoint>, num: int, closed: seq<Books>, a: Address, votes: int)
    requires Records(c, num, closed, a)
    ensures var w := Written(c, |closed|, votes); Records(w, |w|, closed, a) && Latest(w) == votes
  {
    var w := Written(c, |closed|, votes);
    WrittenLookup(c, |closed|, votes, 0);
    forall s | 0 <= s < |closed| ensures Lookup(w, s) == Power(closed[s], a) {
      WrittenLookup(c, |closed|, votes, s);
    }
  }

  /** Closing ledgers turns the latest checkpoint into their answer. */
  lemma ClosingRecords(c: seq<Checkpoint>, num: int, closed: seq<Books>, a: Address, b: Books, more: nat)
    requires Records(c, num, closed, a) && Latest(c) == Power(b, a)
    ensures Records(c, num, closed + seq(more, _ => b), a)
  {
    var closed' := closed + seq(more, _ => b);
    forall s | 0 <= s < |closed'| ensures Lookup(c, s) == Power(closed'[s], a) {
      if s >= |closed| { LookupNow(c, |closed|, s); }
    }
  }

  /** Stored power equals the power the books give, for every account. */
  ghost predicate Agrees(power: map<Address, int>, b: Books) {
    forall a :: Get(power, a) == Power(b, a)
  }

  /** `power'` is `power` with `amount` moved from `src` to `dst`. */
  ghost predicate Shifted(power: map<Address, int>, power': map<Address, int>,
                          src: Option<Address>, dst: Option<Address>, amount: int) {
    forall a :: (Get(power', a) == Get(power, a)
      - (if src == Some(a) then amount else 0) + (if dst == Some(a) then amount else 0))
  }

  lemma AgreesAfterCredit(power: map<Address, int>, power': map<Address, int>, b: Books, a: Address, amount: int)
    requires Agrees(power, b)
    requires Shifted(power, power', None, Some(DelegateOf(b.delegates, a)), amount)
    ensures Agrees(power', Credit(b, a, amount)) && Supply(Credit(b, a, amount)) == Supply(b) + amount
  {
    forall d ensures Get(power', d) == Power(Credit(b, a, amount), d) {
      PowerAfterCredit(b, a, amount, d);
    }
    PowerAfterCredit(b, a, amount, a);
  }

  lemma AgreesAfterDebit(power: map<Address, int>, power': map<Address, int>, b: Books, a: Address, amount: int)
    requires Agrees(power, b)
    requires Shifted(power, power', Some(DelegateOf(b.delegates, a)), None, amount)
    ensures Agrees(power', Debit(b, a, amount)) && Supply(Debit(b, a, amount)) == Supply(b) - amount
  {
    forall d ensures Get(power', d) == Power(Debit(b, a, amount), d) {
      PowerAfterDebit(b, a, amount, d);
    }
    PowerAfterDebit(b, a, amount, a);
  }

  lemma AgreesAfterMove(power: map<Address, int>, power': map<Address, int>, b: Books, from: Address, to: Address,
                        amount: int)
    requires Agrees(power, b)
    requires Shifted(power, power', Some(DelegateOf(b.delegates, from)), Some(DelegateOf(b.delegates, to)), amount)
    ensures Agrees(power', Move(b, from, to, amount)) && Supply(Move(b, from, to, amount)) == Supply(b)
  {
    forall d ensures Get(power', d) == Power(Move(b, from, to, amount), d) {
      PowerAfterMove(b, from, to, amount, d);
    }
    PowerAfterMove(b, from, to, amount, from);
  }

  lemma AgreesAfterDelegate(power: map<Address, int>, power': map<Address, int>, b: Books, a: Address, chosen: Address)
    requires Agrees(power, b)
    requires Shifted(power, power', Some(DelegateOf(b.delegates, a)), Some(chosen), Get(b.balances, a))
    ensures Agrees(power', SetDelegate(b, a, chosen))
  {
    forall d ensures Get(power', d) == Power(SetDelegate(b, a, chosen), d) {
      PowerAfterSetDelegate(b, a, chosen, d);
    }
  }

  lemma AgreesAfterAllowance(power: map<Address, int>, b: Books, b': Books)
    requires Agrees(power, b) && b'.balances == b.balances && b'.delegates == b.delegates
    ensures Agrees(power, b') && Supply(b') == Supply(b)
  {
    forall d ensures Get(power, d) == Power(b', d) {
      BackersUnchanged(b, b', d);
    }
  }

  /** Power stays in range: what the delegate of a holder can lose and gain. */
  lemma PowerInRange(power: map<Address, int>, b: Books, from: Address, d: Address, amount: int)
    requires Agrees(power, b) && Sound(b) && 0 <= amount <= Get(b.balances, from)
    ensures amount <= Get(power, DelegateOf(b.delegates, from))
    ensures Get(power, d) <= Supply(b)
    ensures d != DelegateOf(b.delegates, from) ==> Get(power, d) + amount <= Supply(b)
  {
    PowerBounds(b, from);
    PowerBounds(b, d);
    if d != DelegateOf(b.delegates, from) {
      TwoPowers(b, d, DelegateOf(b.delegates, from));
    }
  }

  lemma DelegationInRange(power: map<Address, int>, w: World, delegator: Address, delegatee: Address)
    requires Agrees(power, w.books) && Reachable(w) && delegatee != DelegateOf(w.books.delegates, delegator)
    ensures var balance := Get(w.books.balances, delegator);
      && 0 <= balance <= Get(power, DelegateOf(w.books.delegates, delegator))
      && Get(power, delegatee) + balance <= I128_MAX
  {
    ReachableIsSound(w);
    PowerBounds(w.books, delegator);
    PowerInRange(power, w.books, delegator, delegatee, Get(w.books.balances, delegator));
  }

  class GovernanceToken {
    var admin: Option<Address>
    var config: Option<Config>
    var totalSupply: int
    var balances: map<Address, int>
    var allowances: map<(Address, Address), int>
    var delegates: map<Address, Address>
    var votingPower: map<Address, int>
    var checkpoints: map<Address, seq<Checkpoint>>
    var numCheckpoints: map<Address, int>
    var proposals: map<nat, Proposal>
    var proposalCount: nat
    var hasVoted: set<Ballot>
    var receipts: map<Ballot, Receipt>

    // the ledger the contract runs in, and the invocations it made
    var sequence: nat
    var now: nat
    var executions: seq<Execution>

    // the state of the machine of module Governance, with the history that the
    // contract itself does not store
    ghost var world: World

    /** What the contract stores is what `w` says it stores. */
    ghost predicate Stores(w: World)
      reads this`admin, this`config, this`balances, this`allowances, this`delegates, this`proposals,
            this`proposalCount, this`receipts, this`hasVoted, this`now, this`executions
    {
      && w == w.(admin := admin, config := config, proposals := proposals, proposalCount := proposalCount,
                 receipts := receipts, now := now, executions := executions,
                 books := Books(balances, delegates, allowances))
      && hasVoted == receipts.Keys
    }

    /** The contract is in the state `w` of the machine. */
    ghost predicate IsIn(w: World)
      reads this`admin, this`config, this`balances, this`allowances, this`delegates, this`proposals,
            this`proposalCount, this`receipts, this`hasVoted, this`now, this`executions, this`sequence,
            this`checkpoints, this`numCheckpoints, this`votingPower, this`totalSupply
    {
      && Reachable(w)
      && Stores(w)
      && sequence == w.Sequence()
      && Indexed(checkpoints, numCheckpoints, votingPower, w.closed)
      && Agrees(votingPower, w.books)
      && totalSupply == Supply(w.books)
    }

    ghost predicate Valid()
      reads this
    {
      IsIn(world)
    }

    constructor (sequence: nat, time: nat)
      ensures Valid() && world == Start(sequence, time)
    {
      admin, config, totalSupply := None, None, 0;
      balances, allowances, delegates := map[], map[], map[];
      votingPower, checkpoints, numCheckpoints := map[], map[], map[];
      proposals, proposalCount, hasVoted, receipts := map[], 0, {}, map[];
      this.sequence, now, executions := sequence, time, [];
      world := Start(sequence, time);
      new;
      StartIsReachable(sequence, time);
      forall a ensures Power(EMPTY, a) == 0 {
        assert Backers(EMPTY, a) == map[];
      }
    }

    ghost method Adopt(target: World)
      requires IsIn(target)
      modifies this`world
      ensures Valid() && world == target
    {
      world := target;
    }

    method WriteCheckpoint(account: Address, newVotes: int)
      requires sequence == world.Sequence()
      requires Records(CheckpointsOf(checkpoints, account), Get(numCheckpoints, account), world.closed, account)
      modifies this`checkpoints, this`numCheckpoints
      ensures Records(CheckpointsOf(checkpoints, account), Get(numCheckpoints, account), world.closed, account)
      ensures Latest(CheckpointsOf(checkpoints, account)) == newVotes
      ensures forall a :: a != account ==>
        && CheckpointsOf(checkpoints, a) == old(CheckpointsOf(checkpoints, a))
        && Get(numCheckpoints, a) == old(Get(numCheckpoints, a))
    {
      var ckpts := CheckpointsOf(checkpoints, account);
      var num := if account in numCheckpoints then numCheckpoints[account] else 0;
      WrittenRecords(ckpts, num, world.closed, account, newVotes);
      if num > 0 {
        var lastIdx := |ckpts| - 1;
        if ckpts[lastIdx].sequence == sequence {
          ckpts := ckpts[lastIdx := Checkpoint(sequence, newVotes)];
          checkpoints := checkpoints[account := ckpts];
          assert ckpts == Written(old(CheckpointsOf(checkpoints, account)), sequence, newVotes);
          return;
        }
      }
      ckpts := ckpts + [Checkpoint(sequence, newVotes)];
      checkpoints := checkpoints[account := ckpts];
      numCheckpoints := numCheckpoints[account := num + 1];
    }

    method SetVotingPower(account: Address, power: int)
      requires sequence == world.Sequence() && Indexed(checkpoints, numCheckpoints, votingPower, world.closed)
      modifies this`votingPower, this`checkpoints, this`numCheckpoints
      ensures Indexed(checkpoints, numCheckpoints, votingPower, world.closed)
      ensures votingPower == old(votingPower)[account := power]
    {
      votingPower := votingPower[account := power];
      WriteCheckpoint(account, power);
    }

    /** Moves voting power; the arithmetic stays in range at every step. */
    method MoveVotingPower(src: Option<Address>, dst: Option<Address>, amount: int)
      requires sequence == world.Sequence() && Indexed(checkpoints, numCheckpoints, votingPower, world.closed)
      requires amount >= 0
      requires src.Some? ==> 0 <= Get(votingPower, src.value) - amount
      requires dst.Some? ==> Get(votingPower, dst.value) + (if src == dst then 0 else amount) <= I128_MAX
      modifies this`votingPower, this`checkpoints, this`numCheckpoints
      ensures Indexed(checkpoints, numCheckpoints, votingPower, world.closed)
      ensures Shifted(old(votingPower), votingPower, src, dst, amount)
    {
      if amount == 0 {
        return;
      }
      if src.Some? {
        SetVotingPower(src.value, Get(votingPower, src.value) - amount);
      }
      if dst.Some? {
        SetVotingPower(dst.value, Get(votingPower, dst.value) + amount);
      }
    }

    method Initialize(admin: Address, config: Config) returns (ok: bool)
      requires Valid()
      modifies this
      ensures Valid() && (!ok ==> unchanged(this))
      ensures Commits(old(world), AfterInitialize(old(world), admin, config), world, ok)
    {
      if this.admin.Some? || config.quorumNumerator > 100 {
        return false;
      }
      ghost var target := AfterInitialize(world, admin, config).value;
      assert Reachable(target) by { ReachableStep(world, Call.Initialize(admin, config)); }
      assert totalSupply == 0 by { ReachableIsSound(world); }
      this.admin := Some(admin);
      totalSupply := 0;
      this.config := Some(config);
      Adopt(target);
      ok := true;
    }

    method Mint(caller: Address, to: Address, amount: i128) returns (ok: bool)
      requires Valid()
      modifies this
      ensures Valid() && (!ok ==> unchanged(this))
      ensures Commits(old(world), AfterMint(old(world), caller, to, amount), world, ok)
      ensures ok ==> Pays(old(world).books, world.books, None, Some(to), amount)
    {
      if admin != Some(caller) || amount <= 0 || totalSupply + amount > I128_MAX {
        return false;
      }
      ghost var target := AfterMint(world, caller, to, amount).value;
      assert Reachable(target) by { ReachableStep(world, Call.Mint(caller, to, amount)); }
      assert Pays(world.books, target.books, None, Some(to), amount) by { MintPays(world, caller, to, amount); }
      CommitCredit(to, amount, target);
      ok := true;
    }

    method CommitCredit(to: Address, amount: i128, ghost target: World)
      requires Valid() && Reachable(target) && target == world.(books := Credit(world.books, to, amount))
      requires 0 < amount <= I128_MAX - totalSupply
      modifies this
      ensures Valid() && world == target && unchanged(this`sequence)
    {
      CreditBalance(to, amount);
      assert world.books.delegates == target.books.delegates && world.books.allowances == target.books.allowances;
      Adopt(target);
    }

    /** Balance, supply and voting power of a mint that passed its checks. */
    method CreditBalance(to: Address, amount: i128)
      requires sequence == world.Sequence() && Indexed(checkpoints, numCheckpoints, votingPower, world.closed)
      requires Agrees(votingPower, world.books) && Reachable(world)
      requires balances == world.books.balances && delegates == world.books.delegates
      requires totalSupply == Supply(world.books) && 0 < amount <= I128_MAX - totalSupply
      modifies this`balances, this`totalSupply, this`votingPower, this`checkpoints, this`numCheckpoints
      ensures Indexed(checkpoints, numCheckpoints, votingPower, world.closed)
      ensures balances == Credit(world.books, to, amount).balances
      ensures totalSupply == Supply(Credit(world.books, to, amount))
      ensures Agrees(votingPower, Credit(world.books, to, amount))
    {
      balances := balances[to := Get(balances, to) + amount];
      assert balances == Credit(world.books, to, amount).balances;
      totalSupply := totalSupply + amount;
      CreditPower(to, amount);
    }

    method CreditPower(to: Address, amount: i128)
      requires sequence == world.Sequence() && Indexed(checkpoints, numCheckpoints, votingPower, world.closed)
      requires Agrees(votingPower, world.books) && Reachable(world) && delegates == world.books.delegates
      requires 0 < amount <= I128_MAX - Supply(world.books)
      modifies this`votingPower, this`checkpoints, this`numCheckpoints
      ensures Indexed(checkpoints, numCheckpoints, votingPower, world.closed)
      ensures Agrees(votingPower, Credit(world.books, to, amount))
      ensures Supply(Credit(world.books, to, amount)) == Supply(world.books) + amount
    {
      var delegatee := DelegateOf(delegates, to);
      assert Get(votingPower, delegatee) <= Supply(world.books) by {
        ReachableIsSound(world);
        PowerBounds(world.books, delegatee);
      }
      MoveVotingPower(None, Some(delegatee), amount);
      AgreesAfterCredit(old(votingPower), votingPower, world.books, to, amount);
    }

    method Burn(from: Address, amount: i128) returns (ok: bool)
      requires Valid()
      modifies this
      ensures Valid() && (!ok ==> unchanged(this))
      ensures Commits(old(world), AfterBurn(old(world), from, amount), world, ok)
      ensures ok ==> Pays(old(world).books, world.books, Some(from), None, amount)
    {
      if amount <= 0 {
        return false;
      }
      var balance := Get(balances, from);
      if balance < amount {
        return false;
      }
      ghost var target := AfterBurn(world, from, amount).value;
      assert Reachable(target) by { ReachableStep(world, Call.Burn(from, amount)); }
      assert Pays(world.books, target.books, Some(from), None, amount) by { BurnPays(world, from, amount); }
      DebitBalance(from, amount);
      Adopt(target);
      ok := true;
    }

    method DebitBalance(from: Address, amount: i128)
      requires sequence == world.Sequence() && Indexed(checkpoints, numCheckpoints, votingPower, world.closed)
      requires Agrees(votingPower, world.books) && Reachable(world)
      requires balances == world.books.balances && delegates == world.books.delegates
      requires totalSupply == Supply(world.books) && 0 < amount <= Get(balances, from)
      modifies this`balances, this`totalSupply, this`votingPower, this`checkpoints, this`numCheckpoints
      ensures Indexed(checkpoints, numCheckpoints, votingPower, world.closed)
      ensures balances == Debit(world.books, from, amount).balances
      ensures totalSupply == Supply(Debit(world.books, from, amount))
      ensures Agrees(votingPower, Debit(world.books, from, amount))
    {
      balances := balances[from := Get(balances, from) - amount];
      assert balances == Debit(world.books, from, amount).balances;
      totalSupply := totalSupply - amount;
      DebitPower(from, amount);
    }

    method DebitPower(from: Address, amount: i128)
      requires sequence == world.Sequence() && Indexed(checkpoints, numCheckpoints, votingPower, world.closed)
      requires Agrees(votingPower, world.books) && Reachable(world) && delegates == world.books.delegates
      requires 0 < amount <= Get(world.books.balances, from)
      modifies this`votingPower, this`checkpoints, this`numCheckpoints
      ensures Indexed(checkpoints, numCheckpoints, votingPower, world.closed)
      ensures Agrees(votingPower, Debit(world.books, from, amount))
      ensures Supply(Debit(world.books, from, amount)) == Supply(world.books) - amount
    {
      var delegatee := DelegateOf(delegates, from);
      assert amount <= Get(votingPower, delegatee) by {
        ReachableIsSound(world);
        PowerBounds(world.books, from);
      }
      MoveVotingPower(Some(delegatee), None, amount);
      AgreesAfterDebit(old(votingPower), votingPower, world.books, from, amount);
    }

    /** The part transfer and transfer_from share once their checks passed. */
    method MoveBalance(from: Address, to: Address, amount: i128)
      requires sequence == world.Sequence() && Indexed(checkpoints, numCheckpoints, votingPower, world.closed)
      requires Agrees(votingPower, world.books) && Reachable(world)
      requires balances == world.books.balances && delegates == world.books.delegates
      requires 0 < amount <= Get(balances, from)
      modifies this`balances, this`votingPower, this`checkpoints, this`numCheckpoints
      ensures Indexed(checkpoints, numCheckpoints, votingPower, world.closed)
      ensures balances == Move(world.books, from, to, amount).balances
      ensures Supply(Move(world.books, from, to, amount)) == Supply(world.books)
      ensures Agrees(votingPower, Move(world.books, from, to, amount))
    {
      assert Sound(world.books) by { ReachableIsSound(world); }
      balances := balances[from := Get(balances, from) - amount];
      assert balances == Debit(world.books, from, amount).balances;
      balances := balances[to := Get(balances, to) + amount];
      assert balances == Move(world.books, from, to, amount).balances;
      var fromDelegate := DelegateOf(delegates, from);
      var toDelegate := DelegateOf(delegates, to);
      PowerInRange(votingPower, world.books, from, toDelegate, amount);
      MoveVotingPower(Some(fromDelegate), Some(toDelegate), amount);
      AgreesAfterMove(old(votingPower), votingPower, world.books, from, to, amount);
    }

    method Transfer(from: Address, to: Address, amount: i128) returns (ok: bool)
      requires Valid()
      modifies this
      ensures Valid() && (!ok ==> unchanged(this))
      ensures Commits(old(world), AfterTransfer(old(world), from, to, amount), world, ok)
      ensures ok ==> Pays(old(world).books, world.books, Some(from), Some(to), amount)
    {
      if amount <= 0 || Get(balances, from) < amount {
        return false;
      }
      ghost var target := AfterTransfer(world, from, to, amount).value;
      assert Reachable(target) by { ReachableStep(world, Call.Transfer(from, to, amount)); }
      assert Pays(world.books, target.books, Some(from), Some(to), amount) by { TransferPays(world, from, to, amount); }
      MoveBalance(from, to, amount);
      Adopt(target);
      ok := true;
    }

    method Approve(owner: Address, spender: Address, amount: i128) returns (ok: bool)
      requires Valid()
      modifies this
      ensures Valid() && (!ok ==> unchanged(this))
      ensures Commits(old(world), AfterApprove(old(world), owner, spender, amount), world, ok)
    {
      if amount < 0 {
        return false;
      }
      ghost var target := AfterApprove(world, owner, spender, amount).value;
      assert Reachable(target) by { ReachableStep(world, Call.Approve(owner, spender, amount)); }
      SetAllowance(owner, spender, amount, target);
      ok := true;
    }

    method TransferFrom(spender: Address, from: Address, to: Address, amount: i128) returns (ok: bool)
      requires Valid()
      modifies this
      ensures Valid() && (!ok ==> unchanged(this))
      ensures Commits(old(world), AfterTransferFrom(old(world), spender, from, to, amount), world, ok)
      ensures ok <==> 0 < amount <= Get(old(balances), from) && amount <= Get(old(allowances), (from, spender))
      ensures ok ==> Pays(old(world).books, world.books, Some(from), Some(to), amount)
                     && Spends(old(world).books, world.books, (from, spender), amount)
    {
      if amount <= 0 {
        return false;
      }
      var allowed := Get(allowances, (from, spender));
      if allowed < amount || Get(balances, from) < amount {
        return false;
      }
      ghost var target := AfterTransferFrom(world, spender, from, to, amount).value;
      assert Reachable(target) by { ReachableStep(world, Call.TransferFrom(spender, from, to, amount)); }
      assert Pays(world.books, target.books, Some(from), Some(to), amount)
             && Spends(world.books, target.books, (from, spender), amount)
      by { TransferFromPays(world, spender, from, to, amount); }
      ok := Transfer(from, to, amount);
      SetAllowance(from, spender, allowed - amount, target);
    }

    method SetAllowance(owner: Address, spender: Address, left: int, ghost target: World)
      requires Valid() && Reachable(target)
      requires target == world.(books := world.books.(allowances := allowances[(owner, spender) := left]))
      modifies this`allowances, this`world
      ensures Valid() && world == target
    {
      allowances := allowances[(owner, spender) := left];
      AgreesAfterAllowance(votingPower, world.books, target.books);
      Adopt(target);
    }

    method Delegate(delegator: Address, delegatee: Address)
      requires Valid()
      modifies this
      ensures Valid()
      ensures world == AfterDelegate(old(world), delegator, delegatee)
    {
      var current := DelegateOf(delegates, delegator);
      if current == delegatee {
        return;
      }
      ghost var target := AfterDelegate(world, delegator, delegatee);
      assert Reachable(target) by { ReachableStep(world, Call.Delegate(delegator, delegatee)); }
      MoveDelegation(delegator, current, delegatee);
      Adopt(target);
    }

    method MoveDelegation(delegator: Address, current: Address, delegatee: Address)
      requires sequence == world.Sequence() && Indexed(checkpoints, numCheckpoints, votingPower, world.closed)
      requires Agrees(votingPower, world.books) && Reachable(world)
      requires balances == world.books.balances && delegates == world.books.delegates
      requires current == DelegateOf(delegates, delegator) && current != delegatee
      modifies this`delegates, this`votingPower, this`checkpoints, this`numCheckpoints
      ensures Indexed(checkpoints, numCheckpoints, votingPower, world.closed)
      ensures delegates == SetDelegate(world.books, delegator, delegatee).delegates
      ensures Agrees(votingPower, SetDelegate(world.books, delegator, delegatee))
    {
      var balance := Get(balances, delegator);
      DelegationInRange(votingPower, world, delegator, delegatee);
      if balance > 0 {
        MoveVotingPower(Some(current), Some(delegatee), balance);
      }
      delegates := delegates[delegator := delegatee];
      assert delegates == SetDelegate(world.books, delegator, delegatee).delegates;
      AgreesAfterDelegate(old(votingPower), votingPower, world.books, delegator, delegatee);
    }

    /** The host closes ledgers up to, not including, `sequence`. */
    method Close(sequence: nat, time: nat) returns (ok: bool)
      requires Valid()
      modifies this
      ensures Valid() && (!ok ==> unchanged(this))
      ensures Commits(old(world), AfterClose(old(world), sequence, time), world, ok)
    {
      if sequence < this.sequence || time < now || (sequence == this.sequence && time != now) {
        return false;
      }
      ReachableStep(world, Call.Close(sequence, time));
      ghost var target := AfterClose(world, sequence, time).value;
      forall a ensures Records(CheckpointsOf(checkpoints, a), Get(numCheckpoints, a), target.closed, a) {
        ClosingRecords(CheckpointsOf(checkpoints, a), Get(numCheckpoints, a), world.closed, a, world.books,
                       sequence - this.sequence);
      }
      this.sequence, now := sequence, time;
      Adopt(target);
      ok := true;
    }

    /** Past votes are the voting power the account had when the ledger closed.
        Asking about the current or a later ledger panics. */
    method GetPastVotes(account: Address, sequence: nat) returns (votes: Option<int>)
      requires Valid()
      ensures votes == if sequence < world.Sequence() then Some(Power(world.closed[sequence], account)) else None
    {
      if sequence >= this.sequence {
        return None;
      }
      assert Records(CheckpointsOf(checkpoints, account), Get(numCheckpoints, account), world.closed, account);
      var v := FindPastVotes(CheckpointsOf(checkpoints, account), sequence, this.sequence);
      votes := Some(v);
    }

    method Propose(proposer: Address, action: Action) returns (id: Option<nat>)
      requires Valid()
      modifies this
      ensures Valid() && (id.None? ==> unchanged(this))
      ensures Commits(old(world), AfterPropose(old(world), proposer, action), world, id.Some?)
      ensures id.Some? ==> id.value == proposalCount && id.value !in old(proposals)
    {
      if config.None? {
        return None;
      }
      var cfg := config.value;
      if Get(votingPower, proposer) < cfg.proposalThreshold || proposalCount == U64_MAX {
        return None;
      }
      var startTime := now + cfg.votingDelay;
      var endTime := startTime + cfg.votingPeriod;
      var scaled := totalSupply * cfg.quorumNumerator;
      if endTime > U64_MAX || scaled > I128_MAX {
        return None;
      }
      ghost var target := AfterPropose(world, proposer, action).value;
      assert Reachable(target) by { ReachableStep(world, Call.Propose(proposer, action)); }
      var newId := proposalCount + 1;
      assert newId !in proposals by { ReachableIsSound(world); NextIdIsFresh(world); }
      var p := Proposal(proposer, action, startTime, endTime, sequence, 0, 0, 0, Pending, scaled / 100, 0);
      SetProposal(newId, p, newId, target);
      id := Some(newId);
    }

    /** Stores a proposal; `target` is the world the caller's step leads to. */
    method SetProposal(id: nat, p: Proposal, count: nat, ghost target: World)
      requires Valid() && Reachable(target)
      requires target == world.(proposals := proposals[id := p], proposalCount := count)
      modifies this`proposals, this`proposalCount, this`world
      ensures Valid() && world == target
    {
      proposals := proposals[id := p];
      proposalCount := count;
      Adopt(target);
    }

    method Vote(voter: Address, id: nat, voteType: VoteType) returns (ok: bool)
      requires Valid()
      modifies this
      ensures Valid() && (!ok ==> unchanged(this))
      ensures Commits(old(world), AfterVote(old(world), voter, id, voteType), world, ok)
    {
      if id !in proposals {
        return false;
      }
      var p := proposals[id];
      if now < p.startTime || now > p.endTime || (id, voter) in hasVoted {
        return false;
      }
      assert Records(CheckpointsOf(checkpoints, voter), Get(numCheckpoints, voter), world.closed, voter);
      assert ProposalSound(world, id) by { ReachableIsSound(world); }
      var weight := FindPastVotes(CheckpointsOf(checkpoints, voter), p.snapshot, sequence);
      if p.snapshot >= sequence {
        LookupNow(CheckpointsOf(checkpoints, voter), sequence, p.snapshot);
      }
      assert weight == PowerAt(world, voter, p.snapshot);
      if weight == 0 {
        weight := Get(votingPower, voter);
        if weight == 0 {
          return false;
        }
      }
      ok := ApplyVote(p, voter, id, voteType, weight);
    }

    method ApplyVote(p: Proposal, voter: Address, id: nat, voteType: VoteType, weight: int) returns (ok: bool)
      requires Valid() && id in proposals && p == proposals[id]
      requires p.startTime <= now <= p.endTime && (id, voter) !in receipts
      requires weight == VoteWeight(world, voter, p.snapshot) && weight != 0
      modifies this
      ensures Valid() && (!ok ==> unchanged(this))
      ensures Commits(old(world), AfterVote(old(world), voter, id, voteType), world, ok)
    {
      if TallyOf(p, voteType) + weight > I128_MAX {
        return false;
      }
      ghost var target := AfterVote(world, voter, id, voteType).value;
      assert Reachable(target) by { ReachableStep(world, Call.Vote(voter, id, voteType)); }
      RecordVote(id, voter, Counted(p, voteType, weight), Receipt(voteType, weight), target);
      ok := true;
    }

    method RecordVote(id: nat, voter: Address, p: Proposal, receipt: Receipt, ghost target: World)
      requires Valid() && Reachable(target)
      requires target == world.(proposals := proposals[id := p],
                                receipts := receipts[(id, voter) := receipt],
                                castAt := world.castAt[(id, voter) := sequence])
      modifies this`proposals, this`hasVoted, this`receipts, this`world
      ensures Valid() && world == target
    {
      proposals := proposals[id := p];
      hasVoted := hasVoted + {(id, voter)};
      receipts := receipts[(id, voter) := receipt];
      assert hasVoted == receipts.Keys;
      Adopt(target);
    }

    method Queue(id: nat) returns (ok: bool)
      requires Valid()
      modifies this
      ensures Valid() && (!ok ==> unchanged(this))
      ensures Commits(old(world), AfterQueue(old(world), id), world, ok)
    {
      if id !in proposals {
        return false;
      }
      assert ProposalSound(world, id) by { ReachableIsSound(world); }
      var p := proposals[id];
      if now <= p.endTime || (p.status != Pending && p.status != Active) {
        return false;
      }
      var totalVotes := p.forVotes + p.againstVotes + p.abstainVotes;
      if totalVotes > I128_MAX || totalVotes < p.quorum || p.forVotes <= p.againstVotes {
        return false;
      }
      var eta := now + config.value.timelockDelay;
      if eta > U64_MAX {
        return false;
      }
      ghost var target := AfterQueue(world, id).value;
      assert Reachable(target) by { ReachableStep(world, Call.Queue(id)); }
      SetProposal(id, p.(eta := eta, status := Queued), proposalCount, target);
      ok := true;
    }

    method Execute(id: nat, calleeSucceeds: bool) returns (ok: bool)
      requires Valid()
      modifies this
      ensures Valid() && (!ok ==> unchanged(this))
      ensures Commits(old(world), AfterExecute(old(world), id, calleeSucceeds), world, ok)
    {
      if id !in proposals {
        return false;
      }
      assert ProposalSound(world, id) by { ReachableIsSound(world); }
      var p := proposals[id];
      if p.status != Queued || now < p.eta {
        return false;
      }
      var deadline := p.eta + config.value.gracePeriod;
      if deadline > U64_MAX || now > deadline || !calleeSucceeds {
        return false;
      }
      ghost var target := AfterExecute(world, id, calleeSucceeds).value;
      assert Reachable(target) by { ReachableStep(world, Call.Execute(id, calleeSucceeds)); }
      executions := executions + [Execution(id, p.action, now)];
      proposals := proposals[id := p.(status := Executed)];
      Adopt(target);
      ok := true;
    }

    method Cancel(proposer: Address, id: nat) returns (ok: bool)
      requires Valid()
      modifies this
      ensures Valid() && (!ok ==> unchanged(this))
      ensures Commits(old(world), AfterCancel(old(world), proposer, id), world, ok)
    {
      if id !in proposals {
        return false;
      }
      var p := proposals[id];
      if p.proposer != proposer || now >= p.startTime {
        return false;
      }
      ghost var target := AfterCancel(world, proposer, id).value;
      assert Reachable(target) by { ReachableStep(world, Call.Cancel(proposer, id)); }
      SetProposal(id, p.(status := Canceled), proposalCount, target);
      ok := true;
    }

    method Invoke(c: Call)
      requires Valid()
      modifies this
      ensures Valid() && world == Step(old(world), c)
    {
      match c {
        case Initialize(admin, config) => var _ := Initialize(admin, config);
        case Mint(caller, to, amount) => var _ := Mint(caller, to, amount);
        case Burn(from, amount) => var _ := Burn(from, amount);
        case Transfer(from, to, amount) => var _ := Transfer(from, to, amount);
        case Approve(owner, spender, amount) => var _ := Approve(owner, spender, amount);
        case TransferFrom(spender, from, to, amount) => var _ := TransferFrom(spender, from, to, amount);
        case Delegate(delegator, delegatee) => Delegate(delegator, delegatee);
        case Close(sequence, time) => var _ := Close(sequence, time);
        case _ => Govern(c);
      }
    }

    method Govern(c: Call)
      requires Valid() && (c.Propose? || c.Vote? || c.Queue? || c.Execute? || c.Cancel?)
      modifies this
      ensures Valid() && world == Step(old(world), c)
    {
      if c.Propose? {
        var _ := Propose(c.proposer, c.action);
      } else if c.Vote? {
        var _ := Vote(c.voter, c.id, c.voteType);
      } else {
        Settle(c);
      }
    }

    method Settle(c: Call)
      requires Valid() && (c.Queue? || c.Execute? || c.Cancel?)
      modifies this
      ensures Valid() && world == Step(old(world), c)
    {
      match c {
        case Queue(id) => var _ := Queue(id);
        case Execute(id, succeeds) => var _ := Execute(id, succeeds);
        case Cancel(proposer, id) => var _ := Cancel(proposer, id);
      }
    }
  }

  /** Any run of the contract is the corresponding run of the state machine, so
      what GovernanceTheorems says of runs holds of the contract. */
  method Replay(sequence: nat, time: nat, calls: seq<Call>) returns (g: GovernanceToken)
    ensures g.Valid() && g.world == Run(Start(sequence, time), calls)
  {
    g := new GovernanceToken(sequence, time);
    var i := 0;
    while i < |calls|
      invariant 0 <= i <= |calls| && fresh(g)
      invariant g.Valid() && Run(g.world, calls[i..]) == Run(Start(sequence, time), calls)
    {
      assert calls[i..][0] == calls[i] && calls[i..][1..] == calls[i + 1..];
      g.Invoke(calls[i]);
      i := i + 1;
    }
  }
}
