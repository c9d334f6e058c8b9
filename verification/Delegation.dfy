/** The delegation contract: a delegation record per account and, kept beside
    it, the list of delegators of every delegatee. */
module Delegation {
  import opened Host
  import opened Sequences
  import opened Sums
  import opened DelegationGraph

  datatype Delegation = Delegation(delegator: Address, delegatee: Address, delegatedAt: u64, active: bool)

  type Index = map<Address, seq<Address>>

  function DelegatorsOf(index: Index, d: Address): seq<Address> {
    if d in index then index[d] else []
  }

  /** The records whose `active` flag is set are exactly the edges. */
  ghost predicate Records(delegations: map<Address, Delegation>, e: Edges) {
    forall a ::
      && (a in e <==> a in delegations && delegations[a].active)
      && (a in e ==> delegations[a].delegatee == e[a])
  }

  /** The list of `d` names each account that delegates to `d`, once. */
  ghost predicate Lists(list: seq<Address>, e: Edges, d: Address) {
    Distinct(list) && forall a :: a in list <==> a in e && e[a] == d
  }

  /** The reverse index is the exact inverse of the edges. */
  ghost predicate Inverse(index: Index, e: Edges) {
    forall d :: Lists(DelegatorsOf(index, d), e, d)
  }

  function FirstIndexOf(s: seq<Address>, a: Address): (r: Option<nat>)
    ensures r.Some? ==> r.value < |s| && s[r.value] == a
    ensures r.None? ==> a !in s
  {
    if s == [] then None
    else if s[0] == a then Some(0)
    else match FirstIndexOf(s[1..], a) case Some(i) => Some(i + 1) case None => None
  }

  lemma RemovedFromList(list: seq<Address>, e: Edges, d: Address, i: nat)
    requires Lists(list, e, d) && i < |list|
    ensures Lists(list[..i] + list[i + 1..], e - {list[i]}, d)
  {
    var rest := list[..i] + list[i + 1..];
    forall a ensures a in rest <==> a in list && a != list[i] {
      if a in list && a != list[i] {
        var k :| 0 <= k < |list| && list[k] == a;
        assert rest[if k < i then k else k - 1] == a;
      }
    }
  }

  class DelegationContract {
    var token: Option<Address>
    var delegations: map<Address, Delegation>
    var delegators: Index
    ghost var edges: Edges

    ghost predicate Valid()
      reads this
    {
      Reachable(edges) && Records(delegations, edges) && Inverse(delegators, edges)
    }

    constructor ()
      ensures Valid() && edges == map[]
    {
      token, delegations, delegators, edges := None, map[], map[], map[];
      new;
      NoEdgesReachable();
    }

    method Initialize(tokenAddress: Address) returns (ok: bool)
      requires Valid()
      modifies this`token
      ensures Valid()
      ensures ok == old(token).None? && token == if ok then Some(tokenAddress) else old(token)
    {
      if token.Some? {
        return false;
      }
      token := Some(tokenAddress);
      ok := true;
    }

    method AddDelegator(delegatee: Address, delegator: Address, ghost e: Edges)
      requires Inverse(delegators, e) && delegator !in e
      modifies this`delegators
      ensures Inverse(delegators, e[delegator := delegatee])
    {
      var list := DelegatorsOf(delegators, delegatee);
      assert Lists(list, e, delegatee);
      if delegator !in list {
        list := list + [delegator];
        delegators := delegators[delegatee := list];
      }
      forall d ensures Lists(DelegatorsOf(delegators, d), e[delegator := delegatee], d) {
        assert Lists(DelegatorsOf(old(delegators), d), e, d);
      }
    }

    method RemoveDelegator(delegatee: Address, delegator: Address, ghost e: Edges)
      requires Inverse(delegators, e) && delegator in e && e[delegator] == delegatee
      modifies this`delegators
      ensures Inverse(delegators, e - {delegator})
    {
      var list := DelegatorsOf(delegators, delegatee);
      assert Lists(list, e, delegatee);
      var index := FirstIndexOf(list, delegator);
      if index.Some? {
        delegators := delegators[delegatee := list[..index.value] + list[index.value + 1..]];
        RemovedFromList(list, e, delegatee, index.value);
      }
      forall d ensures Lists(DelegatorsOf(delegators, d), e - {delegator}, d) {
        assert Lists(DelegatorsOf(old(delegators), d), e, d);
      }
    }

    /** Accepts exactly when the delegator is not among the first ten accounts of
        the delegatee's chain. */
    method Delegate(delegator: Address, delegatee: Address, now: u64) returns (ok: bool)
      requires Valid()
      modifies this`delegations, this`delegators, this`edges
      ensures Valid() && (!ok ==> unchanged(this))
      ensures ok == AfterDelegate(old(edges), delegator, delegatee).Some?
      ensures ok ==> edges == AfterDelegate(old(edges), delegator, delegatee).value
      ensures ok ==> delegations == old(delegations)[delegator := Delegation(delegator, delegatee, now, true)]
    {
      if delegator == delegatee {
        return false;
      }
      var circular := WalkMeets(delegator, delegatee);
      if circular {
        return false;
      }
      ReachableStep(edges, DelegationGraph.Delegate(delegator, delegatee));
      if delegator in delegations && delegations[delegator].active {
        RemoveDelegator(delegations[delegator].delegatee, delegator, edges);
      }
      assert Inverse(delegators, edges - {delegator}) by {
        assert delegator !in edges ==> edges - {delegator} == edges;
      }
      AddDelegator(delegatee, delegator, edges - {delegator});
      assert (edges - {delegator})[delegator := delegatee] == edges[delegator := delegatee];
      delegations := delegations[delegator := Delegation(delegator, delegatee, now, true)];
      edges := edges[delegator := delegatee];
      ok := true;
    }

    method WalkMeets(delegator: Address, delegatee: Address) returns (met: bool)
      requires Valid()
      ensures met <==> Meets(edges, delegatee, delegator, WALK)
    {
      var curr := delegatee;
      for i := 0 to WALK
        invariant Hop(edges, delegatee, i) == Some(curr)
        invariant !Meets(edges, delegatee, delegator, i)
      {
        if curr == delegator {
          return true;
        }
        HopLast(edges, delegatee, i);
        if curr in delegations && delegations[curr].active {
          curr := delegations[curr].delegatee;
        } else {
          forall k: nat | k < WALK ensures Hop(edges, delegatee, k) != Some(delegator) {
            if k > i { HopAdd(edges, delegatee, i, k - i); }
          }
          return false;
        }
      }
      met := false;
    }

    method RevokeDelegation(delegator: Address)
      requires Valid()
      modifies this`delegations, this`delegators, this`edges
      ensures Valid()
      ensures edges == AfterRevoke(old(edges), delegator)
      ensures delegations == if delegator in old(edges)
        then old(delegations)[delegator := old(delegations)[delegator].(active := false)] else old(delegations)
    {
      ReachableStep(edges, Revoke(delegator));
      if delegator in delegations && delegations[delegator].active {
        var d := delegations[delegator].(active := false);
        RemoveDelegator(d.delegatee, delegator, edges);
        delegations := delegations[delegator := d];
        edges := edges - {delegator};
      } else {
        assert edges - {delegator} == edges;
      }
    }

    method GetDelegatorChain(start: Address) returns (chain: seq<Address>)
      requires Valid()
      ensures chain == Chain(edges, start, WALK)
    {
      var current := start;
      chain := [current];
      for i := 0 to WALK
        invariant |chain| == i + 1 && chain[i] == current
        invariant forall j :: 0 <= j <= i ==> Hop(edges, start, j) == Some(chain[j])
      {
        HopLast(edges, start, i);
        if current in delegations && delegations[current].active {
          current := delegations[current].delegatee;
          chain := chain + [current];
        } else {
          break;
        }
      }
      ChainUnique(edges, start, WALK, chain);
    }

    /** The balances of everybody 1 to `MAX_DEPTH + 1 - depth` hops behind, each
        counted once; no partial sum exceeds all balances together. */
    method ComputeDelegatedPower(delegatee: Address, bal: map<Address, int>, depth: nat) returns (total: int)
      requires Valid() && NonNegative(bal) && 1 <= depth <= MAX_DEPTH + 1
      ensures total == Held(bal, Backing(edges, delegatee, MAX_DEPTH + 1 - depth))
      decreases MAX_DEPTH + 1 - depth, 1
    {
      ghost var n := MAX_DEPTH + 1 - depth;
      if depth > MAX_DEPTH {
        assert Backing(edges, delegatee, n) == {};
        HeldNothing(bal);
        return 0;
      }
      NoShortCycles(edges);
      total := 0;
      var list := DelegatorsOf(delegators, delegatee);
      assert Lists(list, edges, delegatee);
      ghost var done: set<Address> := {};
      assert Via(edges, done, n) == {};
      HeldNothing(bal);
      HeldWithin(bal, {});
      for i := 0 to |list|
        invariant forall a :: a in done <==> a in list[..i]
        invariant total == Held(bal, Via(edges, done, n)) <= Total(bal)
      {
        var delegator := list[i];
        assert delegator in edges && edges[delegator] == delegatee && delegator !in done by {
          assert delegator in list;
        }
        assert forall a :: a in done ==> a in edges && edges[a] == delegatee;
        ghost var more := done + {delegator};
        assert Held(bal, Via(edges, more, n)) <= Total(bal) by { HeldWithin(bal, Via(edges, more, n)); }
        var through := PowerThrough(delegator, delegatee, bal, depth);
        HeldViaNext(edges, bal, delegatee, done, delegator, n);
        total := total + through;
        assert list[..i + 1] == list[..i] + [delegator];
        done := more;
      }
      assert list[..|list|] == list;
      BackingIsVia(edges, done, delegatee, n);
    }

    /** What one listed delegator brings: its balance and everything behind it. */
    method PowerThrough(delegator: Address, delegatee: Address, bal: map<Address, int>, depth: nat) returns (power: int)
      requires Valid() && NonNegative(bal) && 1 <= depth <= MAX_DEPTH
      ensures power == if delegator in edges && edges[delegator] == delegatee
        then Get(bal, delegator) + Held(bal, Backing(edges, delegator, MAX_DEPTH - depth)) else 0
      decreases MAX_DEPTH + 1 - depth, 0
    {
      power := 0;
      if delegator in delegations {
        var d := delegations[delegator];
        if d.active && d.delegatee == delegatee {
          power := Get(bal, delegator);
          var behind := ComputeDelegatedPower(delegator, bal, depth + 1);
          power := power + behind;
        }
      }
    }

    /** Without a token the call panics. */
    method GetVotingPower(address: Address, bal: map<Address, int>) returns (power: Option<int>)
      requires Valid() && NonNegative(bal)
      ensures power == if token.Some? then Some(VotingPower(edges, bal, address)) else None
    {
      if token.None? {
        return None;
      }
      if address in delegations && delegations[address].active {
        return Some(0);
      }
      var delegated := ComputeDelegatedPower(address, bal, 1);
      NoShortCycles(edges);
      NotBehindItself(edges, address, MAX_DEPTH);
      HeldUnion(bal, {address}, Backing(edges, address, MAX_DEPTH));
      HeldOne(bal, address);
      power := Some(Get(bal, address) + delegated);
    }
  }
}
