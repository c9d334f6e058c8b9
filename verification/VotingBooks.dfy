/** Token balances and delegation choices, and the voting power they give.
    Here power is a definition (the balances delegated to an account), not a
    stored number; GovernanceToken shows that its stored numbers agree. */
module VotingBooks {
  import opened Host
  import opened Sums

  datatype Books = Books(
    balances: map<Address, int>,
    delegates: map<Address, Address>,
    allowances: map<(Address, Address), int>)

  const EMPTY := Books(map[], map[], map[])

  /** Accounts that never delegated count for themselves. */
  function DelegateOf(delegates: map<Address, Address>, a: Address): Address {
    if a in delegates then delegates[a] else a
  }

  /** The holders who chose `a`, with what they hold. */
  ghost function Backers(b: Books, a: Address): map<Address, int> {
    map h | h in b.balances && DelegateOf(b.delegates, h) == a :: b.balances[h]
  }

  ghost function Power(b: Books, a: Address): int {
    Total(Backers(b, a))
  }

  ghost function Supply(b: Books): int {
    Total(b.balances)
  }

  ghost predicate Sound(b: Books) {
    NonNegative(b.balances) && Supply(b) <= I128_MAX
  }

  function SetBalance(b: Books, a: Address, v: int): Books {
    b.(balances := b.balances[a := v])
  }

  function SetDelegate(b: Books, a: Address, d: Address): Books {
    b.(delegates := b.delegates[a := d])
  }

  function Credit(b: Books, a: Address, amount: int): Books {
    SetBalance(b, a, Get(b.balances, a) + amount)
  }

  function Debit(b: Books, a: Address, amount: int): Books {
    SetBalance(b, a, Get(b.balances, a) - amount)
  }

  function Move(b: Books, from: Address, to: Address, amount: int): Books {
    Credit(Debit(b, from, amount), to, amount)
  }

  lemma BackersAfterSetBalance(b: Books, a: Address, v: int, d: Address)
    ensures Backers(SetBalance(b, a, v), d)
         == if DelegateOf(b.delegates, a) == d then Backers(b, d)[a := v] else Backers(b, d)
  {
    var b' := SetBalance(b, a, v);
    assert forall h :: DelegateOf(b'.delegates, h) == DelegateOf(b.delegates, h);
  }

  lemma PowerAfterSetBalance(b: Books, a: Address, v: int, d: Address)
    ensures Power(SetBalance(b, a, v), d)
         == Power(b, d) + if DelegateOf(b.delegates, a) == d then v - Get(b.balances, a) else 0
    ensures Supply(SetBalance(b, a, v)) == Supply(b) - Get(b.balances, a) + v
  {
    assert Supply(SetBalance(b, a, v)) == Supply(b) - Get(b.balances, a) + v by {
      TotalUpdate(b.balances, a, v);
    }
    BackersAfterSetBalance(b, a, v, d);
    assert DelegateOf(b.delegates, a) == d ==> Total(Backers(b, d)[a := v]) == Power(b, d) + v - Get(b.balances, a) by {
      TotalUpdate(Backers(b, d), a, v);
    }
  }

  lemma PowerAfterCredit(b: Books, a: Address, amount: int, d: Address)
    ensures Power(Credit(b, a, amount), d)
         == Power(b, d) + if DelegateOf(b.delegates, a) == d then amount else 0
    ensures Supply(Credit(b, a, amount)) == Supply(b) + amount
  {
    PowerAfterSetBalance(b, a, Get(b.balances, a) + amount, d);
  }

  lemma PowerAfterDebit(b: Books, a: Address, amount: int, d: Address)
    ensures Power(Debit(b, a, amount), d)
         == Power(b, d) - if DelegateOf(b.delegates, a) == d then amount else 0
    ensures Supply(Debit(b, a, amount)) == Supply(b) - amount
  {
    PowerAfterSetBalance(b, a, Get(b.balances, a) - amount, d);
  }

  lemma PowerAfterMove(b: Books, from: Address, to: Address, amount: int, d: Address)
    ensures Power(Move(b, from, to, amount), d)
         == Power(b, d) - (if DelegateOf(b.delegates, from) == d then amount else 0)
                        + (if DelegateOf(b.delegates, to) == d then amount else 0)
    ensures Supply(Move(b, from, to, amount)) == Supply(b)
  {
    PowerAfterDebit(b, from, amount, d);
    PowerAfterCredit(Debit(b, from, amount), to, amount, d);
  }

  lemma BackersAfterSetDelegate(b: Books, a: Address, chosen: Address, d: Address)
    requires a in b.balances && DelegateOf(b.delegates, a) != chosen
    ensures Backers(SetDelegate(b, a, chosen), d)
         == if chosen == d then Backers(b, d)[a := b.balances[a]] else Backers(b, d) - {a}
  {
    var b' := SetDelegate(b, a, chosen);
    assert forall h :: h != a ==> DelegateOf(b'.delegates, h) == DelegateOf(b.delegates, h);
    if chosen == d {
      assert Backers(b', d) == Backers(b, d)[a := b.balances[a]];
    } else {
      assert Backers(b', d) == Backers(b, d) - {a};
    }
  }

  lemma BackersUnchanged(b: Books, b': Books, d: Address)
    requires b'.balances == b.balances
    requires forall h :: h in b.balances ==> DelegateOf(b'.delegates, h) == DelegateOf(b.delegates, h)
    ensures Backers(b', d) == Backers(b, d)
  {
  }

  lemma PowerAfterSetDelegate(b: Books, a: Address, chosen: Address, d: Address)
    ensures Power(SetDelegate(b, a, chosen), d)
         == Power(b, d) - (if DelegateOf(b.delegates, a) == d then Get(b.balances, a) else 0)
                        + (if chosen == d then Get(b.balances, a) else 0)
  {
    if a !in b.balances || DelegateOf(b.delegates, a) == chosen {
      BackersUnchanged(b, SetDelegate(b, a, chosen), d);
    } else {
      BackersAfterSetDelegate(b, a, chosen, d);
      if chosen == d {
        TotalUpdate(Backers(b, d), a, b.balances[a]);
      } else if DelegateOf(b.delegates, a) == d {
        TotalSplit(Backers(b, d), a);
      } else {
        assert Backers(b, d) - {a} == Backers(b, d);
      }
    }
  }

  ghost function Powers(b: Books, accounts: set<Address>): map<Address, int> {
    map a | a in accounts :: Power(b, a)
  }

  /** Every holder's delegate is one of `accounts`. */
  ghost predicate Covers(b: Books, accounts: set<Address>) {
    forall a :: a in b.balances ==> DelegateOf(b.delegates, a) in accounts
  }

  lemma BackersAreGroup(b: Books, choice: map<Address, Address>, a: Address)
    requires choice == map h | h in b.balances :: DelegateOf(b.delegates, h)
    ensures Backers(b, a) == Group(b.balances, choice, a)
  {
  }

  lemma PowersAreGroupTotals(b: Books, choice: map<Address, Address>, accounts: set<Address>)
    requires choice == map h | h in b.balances :: DelegateOf(b.delegates, h)
    ensures Powers(b, accounts) == GroupTotals(b.balances, choice, accounts)
  {
    forall a ensures Power(b, a) == Total(Group(b.balances, choice, a)) {
      BackersAreGroup(b, choice, a);
    }
  }

  /** No set of accounts votes with more than the supply, and a set that holds
      every delegate votes with exactly the supply. */
  lemma PowerIsConserved(b: Books, accounts: set<Address>)
    ensures NonNegative(b.balances) ==> Total(Powers(b, accounts)) <= Supply(b)
    ensures Covers(b, accounts) ==> Total(Powers(b, accounts)) == Supply(b)
  {
    var choice := map h | h in b.balances :: DelegateOf(b.delegates, h);
    GroupsPartition(b.balances, choice, accounts);
    PowersAreGroupTotals(b, choice, accounts);
    var counted := Groups(b.balances, choice, accounts);
    if NonNegative(b.balances) {
      TotalPart(counted, b.balances);
    }
    if Covers(b, accounts) {
      assert counted == b.balances;
    }
  }

  lemma PowerBounds(b: Books, a: Address)
    requires NonNegative(b.balances)
    ensures 0 <= Power(b, a) <= Supply(b)
    ensures 0 <= Get(b.balances, a) <= Power(b, DelegateOf(b.delegates, a))
  {
    var behind := Backers(b, a);
    TotalNonNegative(behind);
    TotalPart(behind, b.balances);
    var behind' := Backers(b, DelegateOf(b.delegates, a));
    TotalNonNegative(behind');
    if a in b.balances {
      TotalSplit(behind', a);
      TotalNonNegative(behind' - {a});
    }
  }

  lemma TwoPowers(b: Books, a: Address, c: Address)
    requires NonNegative(b.balances) && a != c
    ensures Power(b, a) + Power(b, c) <= Supply(b)
  {
    PowerIsConserved(b, {a, c});
    var both := Powers(b, {a, c});
    TotalSplit(both, a);
    TotalSplit(both - {a}, c);
    assert both - {a} - {c} == map[];
  }
}
