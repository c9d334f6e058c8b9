/** What the calls of the delegation contract do to the graph, and whose balances an
    account votes with, in hops along the active delegations. */
module DelegationLaws {
  import opened Host
  import opened Sums
  import opened DelegationGraph

  /** A delegation to somebody else is refused exactly if the delegator is one of the
      ten accounts from the delegatee on along the chain. Otherwise it replaces the
      delegator's own and no other. */
  lemma DelegationReplacesOwn(e: Edges, x: Address, y: Address)
    ensures var accepted, e' := x != y && !Meets(e, y, x, 10), Step(e, Delegate(x, y));
      && (!accepted ==> e' == e)
      && (accepted ==> x in e' && e'[x] == y
                       && forall a :: a != x ==> (a in e' <==> a in e) && (a in e ==> e'[a] == e[a]))
  {
  }

  lemma RevocationRemovesOwn(e: Edges, x: Address)
    ensures var e' := Step(e, Revoke(x));
      forall a :: (a in e' <==> a in e && a != x) && (a in e' ==> e'[a] == e[a])
  {
  }

  /** A delegator votes with nothing; anybody else with the own balance and those of
      everybody whose delegations lead to the account in one, two or three hops. */
  lemma PowerIsThreeHops(e: Edges, bal: map<Address, int>, a: Address, voters: set<Address>)
    requires forall b :: b in voters <==>
      b == a || Hop(e, b, 1) == Some(a) || Hop(e, b, 2) == Some(a) || Hop(e, b, 3) == Some(a)
    ensures VotingPower(e, bal, a) == if a in e then 0 else Total(map b | b in bal && b in voters :: bal[b])
  {
    assert forall b :: Hop(e, b, 1).Some? ==> b in e;
    if a !in e {
      forall b ensures b in {a} + Backing(e, a, 3) <==> b in voters {
        assert b in Backing(e, a, 3) <==>
               Hop(e, b, 1) == Some(a) || Hop(e, b, 2) == Some(a) || Hop(e, b, 3) == Some(a);
      }
      assert Holdings(bal, {a} + Backing(e, a, 3)) == map b | b in bal && b in voters :: bal[b];
    }
  }
}
