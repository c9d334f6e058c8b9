/** The active delegations as a graph in which every account has at most one
    outgoing edge, and what a bounded walk along the edges can tell. */
module DelegationGraph {
  import opened Host
  import Runs
  import opened Sums

  type Edges = map<Address, Address>

  const WALK := 10
  const MAX_DEPTH := 3

  /** Where `k` hops from `a` lead, if the chain is that long. */
  function Hop(e: Edges, a: Address, k: nat): Option<Address>
    decreases k
  {
    if k == 0 then Some(a)
    else if a in e then Hop(e, e[a], k - 1)
    else None
  }

  /** The last hop can also be taken last. */
  lemma {:induction false} HopLast(e: Edges, a: Address, k: nat)
    ensures Hop(e, a, k + 1) ==
      var b := Hop(e, a, k); if b.Some? && b.value in e then Some(e[b.value]) else None
    decreases k
  {
    if k != 0 && a in e {
      HopLast(e, e[a], k - 1);
    }
  }

  lemma {:induction false} HopAdd(e: Edges, a: Address, j: nat, k: nat)
    ensures Hop(e, a, j + k) == var b := Hop(e, a, j); if b.Some? then Hop(e, b.value, k) else None
    decreases j
  {
    if j != 0 && a in e {
      HopAdd(e, e[a], j - 1, k);
    }
  }

  // ---- Cycles ----

  ghost predicate OnCycle(e: Edges, a: Address, k: nat) {
    k >= 1 && Hop(e, a, k) == Some(a)
  }

  /** No account comes back to itself within `n` hops. */
  ghost predicate NoCycleUpTo(e: Edges, n: nat) {
    forall a, k: nat :: 1 <= k <= n ==> !OnCycle(e, a, k)
  }

  ghost predicate Acyclic(e: Edges) {
    forall a, k: nat :: !OnCycle(e, a, k)
  }

  /** `x` is met within the first `n` accounts of the walk from `y`. */
  ghost predicate Meets(e: Edges, y: Address, x: Address, n: nat) {
    exists k: nat :: k < n && Hop(e, y, k) == Some(x)
  }

  /** Walking in the graph with the extra edge x -> y is walking in the old graph
      until `x` is met. */
  lemma {:induction false} HopBeforeMeeting(e: Edges, x: Address, y: Address, a: Address, k: nat)
    requires !Meets(e, a, x, k)
    ensures Hop(e[x := y], a, k) == Hop(e, a, k)
    decreases k
  {
    if k != 0 {
      assert Hop(e, a, 0) == Some(a);
      assert a != x;
      if a in e {
        forall j: nat | j < k - 1 ensures Hop(e, e[a], j) != Some(x) {
          assert Hop(e, a, j + 1) == Hop(e, e[a], j);
        }
        HopBeforeMeeting(e, x, y, e[a], k - 1);
      }
    }
  }

  /** The first meeting: a walk that meets `x` somewhere meets it a first time. */
  lemma {:induction false} FirstMeeting(e: Edges, a: Address, x: Address, k: nat) returns (j: nat)
    requires Hop(e, a, k) == Some(x)
    ensures j <= k && Hop(e, a, j) == Some(x) && !Meets(e, a, x, j)
    decreases k
  {
    if i: nat :| i < k && Hop(e, a, i) == Some(x) {
      j := FirstMeeting(e, a, x, i);
    } else {
      j := k;
    }
  }

  /** A cycle that the new edge x -> y closes was visible from `y` before: the
      old walk from `y` meets `x` in fewer hops than the cycle is long. */
  lemma NewCycleWasVisible(e: Edges, x: Address, y: Address, a: Address, k: nat)
    requires OnCycle(e[x := y], a, k) && !OnCycle(e, a, k)
    ensures Meets(e, y, x, k)
  {
    var e' := e[x := y];
    if !Meets(e, a, x, k) {
      HopBeforeMeeting(e, x, y, a, k);
      assert false;
    }
    // rotate the cycle so that it starts at x
    var i: nat :| i < k && Hop(e, a, i) == Some(x);
    var m := FirstMeeting(e, a, x, i);
    HopBeforeMeeting(e, x, y, a, m);
    HopAdd(e', a, m, k - m);
    HopAdd(e', x, k - m, m);
    assert Hop(e', x, k) == Some(x);
    assert Hop(e', y, k - 1) == Some(x);
    var j := FirstMeeting(e', y, x, k - 1);
    NewWalkMeetsOld(e, x, y, j);
  }

  lemma {:induction false} NewWalkMeetsOld(e: Edges, x: Address, y: Address, j: nat)
    requires Hop(e[x := y], y, j) == Some(x) && !Meets(e[x := y], y, x, j)
    ensures Hop(e, y, j) == Some(x)
  {
    var e' := e[x := y];
    if i: nat :| i < j && Hop(e, y, i) == Some(x) {
      var m := FirstMeeting(e, y, x, i);
      HopBeforeMeeting(e, x, y, y, m);
      assert false;
    }
    HopBeforeMeeting(e, x, y, y, j);
  }

  /** Fewer edges make no new cycles. */
  lemma {:induction false} HopInSubgraph(e: Edges, x: Address, a: Address, k: nat)
    ensures Hop(e - {x}, a, k).Some? ==> Hop(e, a, k) == Hop(e - {x}, a, k)
    decreases k
  {
    if k != 0 && a in e {
      HopInSubgraph(e, x, e[a], k - 1);
    }
  }

  // ---- The contract's operations on the graph ----

  ghost predicate Accepts(e: Edges, x: Address, y: Address) {
    x != y && !Meets(e, y, x, WALK)
  }

  ghost function AfterDelegate(e: Edges, x: Address, y: Address): Option<Edges> {
    if Accepts(e, x, y) then Some(e[x := y]) else None
  }

  ghost function AfterRevoke(e: Edges, x: Address): Edges {
    e - {x}
  }

  datatype Call = Delegate(delegator: Address, delegatee: Address) | Revoke(delegator: Address)

  ghost function Step(e: Edges, c: Call): Edges {
    match c
    case Delegate(x, y) => (match AfterDelegate(e, x, y) case Some(e') => e' case None => e)
    case Revoke(x) => AfterRevoke(e, x)
  }

  ghost predicate Reachable(e: Edges) {
    Runs.ReachableFrom(Step, map[], e)
  }

  lemma StepKeepsShortCyclesOut(e: Edges, c: Call)
    requires NoCycleUpTo(e, WALK)
    ensures NoCycleUpTo(Step(e, c), WALK)
  {
    var e' := Step(e, c);
    forall a, k: nat | 1 <= k <= WALK ensures !OnCycle(e', a, k) {
      assert !OnCycle(e, a, k);
      match c
      case Delegate(x, y) =>
        if e' != e && OnCycle(e', a, k) {
          NewCycleWasVisible(e, x, y, a, k);
          assert false;
        }
      case Revoke(x) => HopInSubgraph(e, x, a, k);
    }
  }

  /** In every reachable graph no cycle has length 10 or less. */
  lemma NoShortCycles(e: Edges)
    requires Reachable(e)
    ensures NoCycleUpTo(e, 10)
  {
    var inv := (e': Edges) => NoCycleUpTo(e', WALK);
    forall e', c | inv(e') ensures inv(Step(e', c)) {
      StepKeepsShortCyclesOut(e', c);
    }
    Runs.ReachableKeeps(Step, inv, map[], e);
  }

  // ---- What the bounded check does not promise ----

  /** A call leaves a graph without cycles without cycles exactly unless it
      delegates to somebody on whose chain the delegator stands, but is not met
      within the ten accounts that the contract looks at. */
  lemma StepKeepsAcyclicIff(e: Edges, c: Call)
    requires Acyclic(e)
    ensures Acyclic(Step(e, c)) <==>
      !(c.Delegate? && !Meets(e, c.delegatee, c.delegator, 10)
        && exists k: nat :: k >= 10 && Hop(e, c.delegatee, k) == Some(c.delegator))
  {
    match c
    case Delegate(x, y) =>
      if Accepts(e, x, y) {
        AcyclicIffNotOnChain(e, x, y);
        assert forall k: nat :: k < WALK ==> Hop(e, y, k) != Some(x);
      } else {
        assert Hop(e, y, 0) == Some(y);
      }
    case Revoke(x) =>
      forall a, k: nat ensures !OnCycle(e - {x}, a, k) {
        HopInSubgraph(e, x, a, k);
        assert !OnCycle(e, a, k);
      }
  }

  /** An edge added to a graph without cycles closes one exactly when the delegator
      stands somewhere on the delegatee's chain. */
  lemma AcyclicIffNotOnChain(e: Edges, x: Address, y: Address)
    requires Acyclic(e) && x != y
    ensures Acyclic(e[x := y]) <==> forall k: nat :: Hop(e, y, k) != Some(x)
  {
    var e' := e[x := y];
    if k: nat :| Hop(e, y, k) == Some(x) {
      var j := FirstMeeting(e, y, x, k);
      HopBeforeMeeting(e, x, y, y, j);
      assert Hop(e', x, j + 1) == Some(x);
      assert OnCycle(e', x, j + 1);
    } else {
      forall a, k: nat ensures !OnCycle(e', a, k) {
        assert !OnCycle(e, a, k);
        if OnCycle(e', a, k) {
          NewCycleWasVisible(e, x, y, a, k);
          assert false;
        }
      }
    }
  }

  /** Accounts 0 .. n-1 each delegate to the next one. */
  function Line(n: nat): Edges {
    if n == 0 then map[] else Line(n - 1)[Address(n - 1) := Address(n)]
  }

  lemma {:induction false} LineEdges(n: nat)
    ensures forall a :: a in Line(n) <==> a.id < n
    ensures forall a :: a in Line(n) ==> Line(n)[a] == Address(a.id + 1)
  {
    if n != 0 {
      LineEdges(n - 1);
    }
  }

  lemma {:induction false} LineHops(e: Edges, n: nat, i: nat, k: nat)
    requires i + k <= n && forall a: Address :: a.id < n ==> a in e && e[a] == Address(a.id + 1)
    ensures Hop(e, Address(i), k) == Some(Address(i + k))
    decreases k
  {
    if k != 0 {
      LineHops(e, n, i + 1, k - 1);
    }
  }

  lemma NoEdgesReachable()
    ensures Reachable(map[])
  {
    Runs.ReachableNow(Step, map[]);
  }

  lemma ReachableStep(e: Edges, c: Call)
    requires Reachable(e)
    ensures Reachable(Step(e, c))
  {
    Runs.ReachableNext(Step, map[], e, c);
  }

  lemma {:induction false} LineIsReachable(n: nat)
    ensures Reachable(Line(n))
  {
    if n == 0 {
      NoEdgesReachable();
    } else {
      LineIsReachable(n - 1);
      LineEdges(n - 1);
      var e, x, y := Line(n - 1), Address(n - 1), Address(n);
      forall k: nat | k < WALK ensures Hop(e, y, k) != Some(x) {
      }
      ReachableStep(e, Delegate(x, y));
    }
  }

  /** Eleven accounts can delegate in a circle: the bound on the walk is tight. */
  lemma ElevenCycleIsReachable()
    ensures exists e :: Reachable(e) && OnCycle(e, Address(0), 11)
  {
    var e, x, y := Line(WALK), Address(WALK), Address(0);
    LineIsReachable(WALK);
    LineEdges(WALK);
    forall k: nat | k < WALK ensures Hop(e, y, k) != Some(x) {
      LineHops(e, WALK, 0, k);
    }
    ReachableStep(e, Delegate(x, y));
    var ring := e[x := y];
    LineHops(e, WALK, 0, WALK);
    HopBeforeMeeting(e, x, y, y, WALK);
    HopLast(ring, y, WALK);
    assert OnCycle(ring, y, WALK + 1);
  }

  // ---- Chains ----

  /** The first `n + 1` accounts of the chain from `a`, or all of them. */
  function Chain(e: Edges, a: Address, n: nat): seq<Address>
    decreases n
  {
    [a] + if n != 0 && a in e then Chain(e, e[a], n - 1) else []
  }

  lemma {:induction false} ChainIsHops(e: Edges, a: Address, n: nat)
    ensures 1 <= |Chain(e, a, n)| <= n + 1
    ensures forall i :: 0 <= i < |Chain(e, a, n)| ==> Hop(e, a, i) == Some(Chain(e, a, n)[i])
    ensures |Chain(e, a, n)| == n + 1 || Chain(e, a, n)[|Chain(e, a, n)| - 1] !in e
    decreases n
  {
    if n != 0 && a in e {
      var c, rest := Chain(e, a, n), Chain(e, e[a], n - 1);
      ChainIsHops(e, e[a], n - 1);
      assert c == [a] + rest;
      forall i | 0 <= i < |c| ensures Hop(e, a, i) == Some(c[i]) {
        if i > 0 { assert c[i] == rest[i - 1]; }
      }
    }
  }

  /** A list of hops that stops only at the bound or at the end is the chain. */
  lemma ChainUnique(e: Edges, a: Address, n: nat, c: seq<Address>)
    requires 1 <= |c| <= n + 1
    requires forall i :: 0 <= i < |c| ==> Hop(e, a, i) == Some(c[i])
    requires |c| == n + 1 || c[|c| - 1] !in e
    ensures c == Chain(e, a, n)
  {
    var d := Chain(e, a, n);
    ChainIsHops(e, a, n);
    HopLast(e, a, |c| - 1);
    HopLast(e, a, |d| - 1);
    assert |c| == |d|;
  }

  lemma ChainEdges(e: Edges, a: Address, n: nat, i: nat)
    requires i + 1 < |Chain(e, a, n)|
    ensures Chain(e, a, n)[i] in e && Chain(e, a, n)[i + 1] == e[Chain(e, a, n)[i]]
  {
    ChainIsHops(e, a, n);
    HopLast(e, a, i);
  }

  lemma ChainDistinct(e: Edges, a: Address, n: nat, i: nat, j: nat)
    requires NoCycleUpTo(e, n) && i < j < |Chain(e, a, n)|
    ensures Chain(e, a, n)[i] != Chain(e, a, n)[j]
  {
    ChainIsHops(e, a, n);
    HopAdd(e, a, i, j - i);
    assert !OnCycle(e, Chain(e, a, n)[i], j - i);
  }

  /** In every reachable graph a chain has at most eleven accounts, all distinct,
      each the active delegate of the one before; it stops early only at an
      account that does not delegate. */
  lemma ChainsAreSimple(e: Edges, a: Address, c: seq<Address>)
    requires Reachable(e) && c == Chain(e, a, WALK)
    ensures 1 <= |c| <= 11 && c[0] == a
    ensures forall i :: 0 <= i < |c| - 1 ==> c[i] in e && c[i + 1] == e[c[i]]
    ensures forall i, j :: 0 <= i < j < |c| ==> c[i] != c[j]
    ensures |c| <= 10 ==> c[|c| - 1] !in e
  {
    NoShortCycles(e);
    forall i | 0 <= i < |c| - 1 ensures c[i] in e && c[i + 1] == e[c[i]] {
      ChainEdges(e, a, WALK, i);
    }
    forall i, j | 0 <= i < j < |c| ensures c[i] != c[j] {
      ChainDistinct(e, a, WALK, i, j);
    }
    ChainIsHops(e, a, WALK);
  }

  // ---- Voting power ----

  ghost function Holdings(bal: map<Address, int>, s: set<Address>): map<Address, int> {
    map a | a in bal && a in s :: bal[a]
  }

  /** The tokens the accounts of `s` hold together. */
  ghost function Held(bal: map<Address, int>, s: set<Address>): int {
    Total(Holdings(bal, s))
  }

  /** The accounts whose chain enters `s` after fewer than `n` hops. */
  ghost function Via(e: Edges, s: set<Address>, n: nat): set<Address> {
    set a | a in e && exists k: nat :: k < n && Hop(e, a, k).Some? && Hop(e, a, k).value in s
  }

  /** The accounts whose chain reaches `d` in 1 to `n` hops. */
  ghost function Backing(e: Edges, d: Address, n: nat): set<Address> {
    set a | a in e && exists k: nat :: 1 <= k <= n && Hop(e, a, k) == Some(d)
  }

  ghost predicate AllDelegateTo(e: Edges, s: set<Address>, d: Address) {
    forall a :: a in s <==> a in e && e[a] == d
  }

  /** An account backs `d` through exactly the accounts that delegate to `d`. */
  lemma BackingIsVia(e: Edges, s: set<Address>, d: Address, n: nat)
    requires AllDelegateTo(e, s, d)
    ensures Backing(e, d, n) == Via(e, s, n)
  {
    forall a, k: nat ensures Hop(e, a, k + 1) == Some(d) <==> Hop(e, a, k).Some? && Hop(e, a, k).value in s {
      HopLast(e, a, k);
    }
    forall a | a in Backing(e, d, n) ensures a in Via(e, s, n) {
      var k: nat :| 1 <= k <= n && Hop(e, a, k) == Some(d);
      var j: nat := k - 1;
      HopLast(e, a, j);
      assert Hop(e, a, j).Some? && Hop(e, a, j).value in s;
    }
    forall a | a in Via(e, s, n) ensures a in Backing(e, d, n) {
      var k: nat :| k < n && Hop(e, a, k).Some? && Hop(e, a, k).value in s;
      assert Hop(e, a, k + 1) == Some(d);
    }
  }

  /** One delegator contributes itself and those behind it. */
  lemma ViaOne(e: Edges, b: Address, n: nat)
    requires b in e && n >= 1
    ensures Via(e, {b}, n) == {b} + Backing(e, b, n - 1)
  {
    forall a | a in Via(e, {b}, n) ensures a in {b} + Backing(e, b, n - 1) {
      var k: nat :| k < n && Hop(e, a, k).Some? && Hop(e, a, k).value in {b};
      assert k == 0 ==> a == b;
    }
    assert Hop(e, b, 0) == Some(b);
    forall a | a in Backing(e, b, n - 1) ensures a in Via(e, {b}, n) {
      var k: nat :| 1 <= k <= n - 1 && Hop(e, a, k) == Some(b);
      assert Hop(e, a, k).value in {b};
    }
  }

  lemma MetTwice(e: Edges, a: Address, d: Address, j: nat, k: nat)
    requires j != k && Hop(e, a, j) == Some(d) == Hop(e, a, k)
    ensures OnCycle(e, d, if j < k then k - j else j - k)
  {
    var lo, hi := if j < k then j else k, if j < k then k else j;
    HopAdd(e, a, lo, hi - lo);
  }

  /** Nobody stands behind `d` through two different delegators: that would put
      `d` on a cycle shorter than the walk the contract checks. */
  lemma ViaDisjoint(e: Edges, d: Address, s: set<Address>, b: Address, n: nat)
    requires NoCycleUpTo(e, WALK) && n <= WALK
    requires b in e && e[b] == d && b !in s
    requires forall a :: a in s ==> a in e && e[a] == d
    ensures Via(e, s, n) !! Via(e, {b}, n)
  {
    forall a | a in Via(e, s, n) ensures a !in Via(e, {b}, n) {
      var j: nat :| j < n && Hop(e, a, j).Some? && Hop(e, a, j).value in s;
      if k: nat :| k < n && Hop(e, a, k).Some? && Hop(e, a, k).value in {b} {
        HopLast(e, a, j);
        HopLast(e, a, k);
        MetTwice(e, a, d, j + 1, k + 1);
        assert false;
      }
    }
  }

  lemma ViaUnion(e: Edges, s: set<Address>, b: Address, n: nat)
    ensures Via(e, s + {b}, n) == Via(e, s, n) + Via(e, {b}, n)
  {
  }

  lemma HeldUnion(bal: map<Address, int>, s: set<Address>, t: set<Address>)
    requires s !! t
    ensures Held(bal, s + t) == Held(bal, s) + Held(bal, t)
  {
    TotalUnion(Holdings(bal, s + t), Holdings(bal, s), Holdings(bal, t));
  }

  lemma HeldOne(bal: map<Address, int>, a: Address)
    ensures Held(bal, {a}) == Get(bal, a)
  {
    var m := Holdings(bal, {a});
    if a in bal {
      TotalSplit(m, a);
      AllZero(m - {a});
    } else {
      AllZero(m);
    }
  }

  lemma HeldNothing(bal: map<Address, int>)
    ensures Held(bal, {}) == 0
  {
    AllZero(Holdings(bal, {}));
  }

  lemma HeldWithin(bal: map<Address, int>, s: set<Address>)
    requires NonNegative(bal)
    ensures 0 <= Held(bal, s) <= Total(bal)
  {
    TotalNonNegative(Holdings(bal, s));
    TotalPart(Holdings(bal, s), bal);
  }

  /** One more delegator in the sum: its own balance and what stands behind it. */
  lemma HeldViaNext(e: Edges, bal: map<Address, int>, d: Address, s: set<Address>, b: Address, n: nat)
    requires NoCycleUpTo(e, WALK) && 1 <= n <= WALK
    requires b in e && e[b] == d && b !in s
    requires forall a :: a in s ==> a in e && e[a] == d
    ensures Held(bal, Via(e, s + {b}, n))
         == Held(bal, Via(e, s, n)) + Get(bal, b) + Held(bal, Backing(e, b, n - 1))
  {
    ViaUnion(e, s, b, n);
    ViaDisjoint(e, d, s, b, n);
    HeldUnion(bal, Via(e, s, n), Via(e, {b}, n));
    HeldViaOne(e, bal, b, n);
  }

  lemma HeldViaOne(e: Edges, bal: map<Address, int>, b: Address, n: nat)
    requires NoCycleUpTo(e, WALK) && 1 <= n <= WALK && b in e
    ensures Held(bal, Via(e, {b}, n)) == Get(bal, b) + Held(bal, Backing(e, b, n - 1))
  {
    ViaOne(e, b, n);
    NotBehindItself(e, b, n - 1);
    HeldUnion(bal, {b}, Backing(e, b, n - 1));
    HeldOne(bal, b);
  }

  lemma NotBehindItself(e: Edges, b: Address, n: nat)
    requires NoCycleUpTo(e, WALK) && n <= WALK
    ensures b !in Backing(e, b, n)
  {
    forall k: nat | 1 <= k <= n ensures Hop(e, b, k) != Some(b) {
      assert !OnCycle(e, b, k);
    }
  }

  /** Delegators have forwarded their power; anybody else votes with the own
      balance and those of the accounts 1 to 3 hops behind, each counted once. */
  ghost function VotingPower(e: Edges, bal: map<Address, int>, a: Address): int {
    if a in e then 0 else Held(bal, {a} + Backing(e, a, MAX_DEPTH))
  }

  // ---- All voting power together ----

  /** The account at the end of the chain, if it is at most `n` hops away. */
  function Root(e: Edges, a: Address, n: nat): Option<Address>
    decreases n
  {
    if a !in e then Some(a) else if n == 0 then None else Root(e, e[a], n - 1)
  }

  lemma {:induction false} RootIsBacked(e: Edges, a: Address, r: Address, n: nat)
    requires r !in e
    ensures Root(e, a, n) == Some(r) <==> a == r || a in Backing(e, r, n)
    decreases n
  {
    if a in e {
      if n != 0 {
        RootIsBacked(e, e[a], r, n - 1);
      }
      forall k: nat | 1 <= k <= n ensures Hop(e, a, k) == Hop(e, e[a], k - 1) {
      }
      if n != 0 && e[a] in Backing(e, r, n - 1) {
        var k: nat :| 1 <= k <= n - 1 && Hop(e, e[a], k) == Some(r);
        assert Hop(e, a, k + 1) == Some(r);
      }
      if n != 0 && e[a] == r {
        assert Hop(e, a, 1) == Some(r);
      }
      if a in Backing(e, r, n) {
        var k: nat :| 1 <= k <= n && Hop(e, a, k) == Some(r);
        assert Hop(e, e[a], k - 1) == Some(r);
      }
    }
  }

  ghost function Roots(e: Edges, bal: map<Address, int>): map<Address, Address> {
    map a | a in bal && Root(e, a, MAX_DEPTH).Some? :: Root(e, a, MAX_DEPTH).value
  }

  lemma {:induction false} RootsDoNotDelegate(e: Edges, a: Address, n: nat)
    ensures Root(e, a, n).Some? ==> Root(e, a, n).value !in e
    decreases n
  {
    if a in e && n != 0 {
      RootsDoNotDelegate(e, e[a], n - 1);
    }
  }

  lemma PowerIsRootGroup(e: Edges, bal: map<Address, int>, r: Address)
    ensures VotingPower(e, bal, r) == Total(Group(bal, Roots(e, bal), r))
  {
    var g := Group(bal, Roots(e, bal), r);
    if r in e {
      forall a ensures a !in g {
        RootsDoNotDelegate(e, a, MAX_DEPTH);
      }
      assert g == map[];
    } else {
      forall a ensures Root(e, a, MAX_DEPTH) == Some(r) <==> a in {r} + Backing(e, r, MAX_DEPTH) {
        RootIsBacked(e, a, r, MAX_DEPTH);
      }
      assert g == Holdings(bal, {r} + Backing(e, r, MAX_DEPTH));
    }
  }

  /** The balances that reach no voter: their chains are longer than three hops. */
  ghost function Lost(e: Edges, bal: map<Address, int>): map<Address, int> {
    map a | a in bal && Root(e, a, MAX_DEPTH).None? :: bal[a]
  }

  lemma PowersAreRootGroups(e: Edges, bal: map<Address, int>, accounts: set<Address>)
    ensures Total(map a | a in accounts :: VotingPower(e, bal, a)) == Total(Groups(bal, Roots(e, bal), accounts))
  {
    forall a ensures VotingPower(e, bal, a) == Total(Group(bal, Roots(e, bal), a)) {
      PowerIsRootGroup(e, bal, a);
    }
    assert (map a | a in accounts :: VotingPower(e, bal, a)) == GroupTotals(bal, Roots(e, bal), accounts);
    GroupsPartition(bal, Roots(e, bal), accounts);
  }

  ghost predicate HoldsAllRoots(e: Edges, bal: map<Address, int>, accounts: set<Address>) {
    forall a :: a in bal && Root(e, a, MAX_DEPTH).Some? ==> Root(e, a, MAX_DEPTH).value in accounts
  }

  lemma CountedPlusLost(e: Edges, bal: map<Address, int>, accounts: set<Address>)
    requires HoldsAllRoots(e, bal, accounts)
    ensures Total(Groups(bal, Roots(e, bal), accounts)) + Total(Lost(e, bal)) == Total(bal)
  {
    TotalUnion(bal, Groups(bal, Roots(e, bal), accounts), Lost(e, bal));
  }

  lemma NothingLost(e: Edges, bal: map<Address, int>)
    requires NonNegative(bal)
    ensures Total(Lost(e, bal)) == 0
       <==> forall a :: a in bal && bal[a] > 0 ==> Root(e, a, MAX_DEPTH).Some?
  {
    var lost := Lost(e, bal);
    if forall a :: a in bal && bal[a] > 0 ==> Root(e, a, MAX_DEPTH).Some? {
      AllZero(lost);
    } else {
      var a :| a in bal && bal[a] > 0 && Root(e, a, MAX_DEPTH).None?;
      TotalSplit(lost, a);
      TotalNonNegative(lost - {a});
    }
  }

  /** All accounts together never vote with more tokens than there are. If
      `accounts` holds the end of every chain, they vote with exactly all tokens
      if and only if every holder's chain ends within three hops. */
  lemma PowerNeverExceedsBalances(e: Edges, bal: map<Address, int>, accounts: set<Address>)
    requires NonNegative(bal)
    ensures Total(map a | a in accounts :: VotingPower(e, bal, a)) <= Total(bal)
    ensures HoldsAllRoots(e, bal, accounts) ==>
      (Total(map a | a in accounts :: VotingPower(e, bal, a)) == Total(bal)
       <==> forall a :: a in bal && bal[a] > 0 ==> Root(e, a, 3).Some?)
  {
    PowersAreRootGroups(e, bal, accounts);
    TotalPart(Groups(bal, Roots(e, bal), accounts), bal);
    if HoldsAllRoots(e, bal, accounts) {
      CountedPlusLost(e, bal, accounts);
      NothingLost(e, bal);
    }
  }
}
