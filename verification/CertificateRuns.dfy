/** Certificates and the index of who owns which, as a state machine. */
module CertificateRuns {
  import opened Host
  import opened Sequences
  import opened Showcase
  import Runs

  datatype World = World(
    admin: Address, paused: bool, count: nat, certs: map<nat, Certificate>, owned: map<Address, seq<nat>>,
    minted: map<(string, Address), nat>)

  function Start(admin: Address): World {
    World(admin, false, 0, map[], map[], map[])
  }

  function ListOf(owned: map<Address, seq<nat>>, o: Address): seq<nat> {
    if o in owned then owned[o] else []
  }

  /** The list without the first occurrence of `id`. */
  function Removed(list: seq<nat>, id: nat): seq<nat> {
    if list == [] then [] else if list[0] == id then list[1..] else [list[0]] + Removed(list[1..], id)
  }

  function Move(owned: map<Address, seq<nat>>, from: Address, to: Address, id: nat): map<Address, seq<nat>> {
    var without := owned[from := Removed(ListOf(owned, from), id)];
    without[to := ListOf(without, to) + [id]]
  }

  function AfterMint(w: World, caller: Address, owner: Address, puzzle: string, seconds: nat, rank: nat,
                     transferable: bool, now: nat): Option<World> {
    if w.paused || caller != w.admin || (puzzle, owner) in w.minted || w.count >= U64_MAX then None
    else
      var id := w.count + 1;
      Some(w.(count := id,
              certs := w.certs[id := Certificate(id, owner, puzzle, now, seconds, rank, FromSeconds(seconds),
                                                 transferable, false)],
              minted := w.minted[(puzzle, owner) := id],
              owned := w.owned[owner := ListOf(w.owned, owner) + [id]]))
  }

  predicate IsLiveOf(certs: map<nat, Certificate>, id: nat, o: Address) {
    id in certs && !certs[id].burned && certs[id].owner == o
  }

  function AfterTransfer(w: World, from: Address, to: Address, id: nat): Option<World> {
    if w.paused || !IsLiveOf(w.certs, id, from) || !w.certs[id].transferable then None
    else Some(w.(certs := w.certs[id := w.certs[id].(owner := to)], owned := Move(w.owned, from, to, id)))
  }

  function AfterBurn(w: World, owner: Address, id: nat): Option<World> {
    if !IsLiveOf(w.certs, id, owner) then None
    else Some(w.(certs := w.certs[id := w.certs[id].(burned := true)],
                 owned := w.owned[owner := Removed(ListOf(w.owned, owner), id)]))
  }

  function AfterSetAdmin(w: World, caller: Address, admin: Address): Option<World> {
    if caller != w.admin then None else Some(w.(admin := admin))
  }

  function AfterSetPaused(w: World, caller: Address, paused: bool): Option<World> {
    if caller != w.admin then None else Some(w.(paused := paused))
  }

  datatype Call =
    | Mint(caller: Address, owner: Address, puzzle: string, seconds: nat, rank: nat, transferable: bool, now: nat)
    | Transfer(from: Address, to: Address, id: nat)
    | Burn(holder: Address, id: nat)
    | SetAdmin(caller: Address, admin: Address)
    | SetPaused(caller: Address, paused: bool)

  function Next(w: World, c: Call): Option<World> {
    match c
    case Mint(caller, owner, puzzle, seconds, rank, transferable, now) =>
      AfterMint(w, caller, owner, puzzle, seconds, rank, transferable, now)
    case Transfer(from, to, id) => AfterTransfer(w, from, to, id)
    case Burn(holder, id) => AfterBurn(w, holder, id)
    case SetAdmin(caller, admin) => AfterSetAdmin(w, caller, admin)
    case SetPaused(caller, paused) => AfterSetPaused(w, caller, paused)
  }

  function Step(w: World, c: Call): World {
    match Next(w, c) case Some(w') => w' case None => w
  }

  ghost predicate Reachable(w: World) {
    exists admin :: Runs.ReachableFrom(Step, Start(admin), w)
  }

  lemma NextIsReachable(w: World, c: Call)
    requires Reachable(w) && Next(w, c).Some?
    ensures Reachable(Next(w, c).value)
  {
    var admin :| Runs.ReachableFrom(Step, Start(admin), w);
    Runs.ReachableNext(Step, Start(admin), w, c);
  }

  lemma StartIsReachable(admin: Address)
    ensures Reachable(Start(admin))
  {
    Runs.ReachableNow(Step, Start(admin));
  }

  // ---- The invariant ----

  /** The list holds exactly what `o` owns, each certificate once. */
  ghost predicate ListSound(list: seq<nat>, certs: map<nat, Certificate>, o: Address) {
    Distinct(list) && forall id :: id in list <==> IsLiveOf(certs, id, o)
  }

  ghost predicate IndexSound(w: World) {
    forall o {:trigger ListOf(w.owned, o)} :: ListSound(ListOf(w.owned, o), w.certs, o)
  }

  ghost predicate CertsSound(w: World) {
    && (forall id: nat :: id in w.certs <==> 1 <= id <= w.count)
    && (forall id :: id in w.certs ==> w.certs[id].id == id && w.certs[id].rarity == FromSeconds(w.certs[id].seconds))
  }

  ghost predicate MintsSound(w: World) {
    && (forall k :: k in w.minted ==> w.minted[k] in w.certs && w.certs[w.minted[k]].puzzle == k.0)
    && (forall id :: id in w.certs ==> exists k :: k in w.minted && w.minted[k] == id)
    && (forall k, l :: k in w.minted && l in w.minted && w.minted[k] == w.minted[l] ==> k == l)
  }

  ghost predicate Sound(w: World) {
    IndexSound(w) && CertsSound(w) && MintsSound(w)
  }

  lemma {:induction false} RemovedFacts(list: seq<nat>, id: nat)
    requires Distinct(list)
    ensures Distinct(Removed(list, id))
    ensures forall x :: x in Removed(list, id) <==> x in list && x != id
    decreases |list|
  {
    if list != [] {
      assert list == [list[0]] + list[1..];
      if list[0] == id {
        assert id !in list[1..];
      } else {
        RemovedFacts(list[1..], id);
        assert list[0] !in list[1..];
      }
    }
  }

  lemma MintKeepsIndex(w: World, w': World, c: Certificate)
    requires Sound(w) && c.id == w.count + 1 && !c.burned
    requires w'.certs == w.certs[c.id := c] && w'.owned == w.owned[c.owner := ListOf(w.owned, c.owner) + [c.id]]
    ensures IndexSound(w')
  {
    assert c.id !in w.certs;
    forall o ensures ListSound(ListOf(w'.owned, o), w'.certs, o) {
      assert ListSound(ListOf(w.owned, o), w.certs, o);
      if o == c.owner {
        assert forall id :: id in ListOf(w.owned, o) ==> id in w.certs;
      }
    }
  }

  lemma TransferKeepsIndex(w: World, w': World, from: Address, to: Address, id: nat)
    requires Sound(w) && IsLiveOf(w.certs, id, from)
    requires w'.certs == w.certs[id := w.certs[id].(owner := to)] && w'.owned == Move(w.owned, from, to, id)
    ensures IndexSound(w')
  {
    forall o ensures ListSound(ListOf(w'.owned, o), w'.certs, o) {
      assert ListSound(ListOf(w.owned, o), w.certs, o);
      assert ListSound(ListOf(w.owned, from), w.certs, from);
      RemovedFacts(ListOf(w.owned, from), id);
      if o == to {
        var before := if to == from then Removed(ListOf(w.owned, from), id) else ListOf(w.owned, to);
        assert ListOf(w'.owned, to) == before + [id] && Distinct(before);
        assert id !in before by {
          assert id in before ==> to != from && IsLiveOf(w.certs, id, to);
        }
      }
    }
  }

  lemma BurnKeepsIndex(w: World, w': World, owner: Address, id: nat)
    requires Sound(w) && IsLiveOf(w.certs, id, owner)
    requires w'.certs == w.certs[id := w.certs[id].(burned := true)]
    requires w'.owned == w.owned[owner := Removed(ListOf(w.owned, owner), id)]
    ensures IndexSound(w')
  {
    forall o ensures ListSound(ListOf(w'.owned, o), w'.certs, o) {
      assert ListSound(ListOf(w.owned, o), w.certs, o);
      RemovedFacts(ListOf(w.owned, owner), id);
    }
  }

  lemma MintKeepsMints(w: World, w': World, c: Certificate, k: (string, Address))
    requires CertsSound(w) && MintsSound(w) && c.id == w.count + 1 && c.puzzle == k.0 && k !in w.minted
    requires w'.certs == w.certs[c.id := c] && w'.minted == w.minted[k := c.id]
    ensures MintsSound(w')
  {
    forall id | id in w'.certs ensures exists j :: j in w'.minted && w'.minted[j] == id {
      if id == c.id {
        assert k in w'.minted;
      } else {
        var j :| j in w.minted && w.minted[j] == id;
        assert j in w'.minted;
      }
    }
  }

  lemma MintKeepsSound(w: World, caller: Address, owner: Address, puzzle: string, seconds: nat, rank: nat,
                       transferable: bool, now: nat)
    requires Sound(w) && AfterMint(w, caller, owner, puzzle, seconds, rank, transferable, now).Some?
    ensures Sound(AfterMint(w, caller, owner, puzzle, seconds, rank, transferable, now).value)
  {
    var w' := AfterMint(w, caller, owner, puzzle, seconds, rank, transferable, now).value;
    MintKeepsIndex(w, w', w'.certs[w'.count]);
    MintKeepsMints(w, w', w'.certs[w'.count], (puzzle, owner));
  }

  lemma StepKeepsSound(w: World, c: Call)
    requires Sound(w)
    ensures Sound(Step(w, c))
  {
    if Next(w, c).Some? {
      match c
      case Mint(caller, owner, puzzle, seconds, rank, transferable, now) =>
        MintKeepsSound(w, caller, owner, puzzle, seconds, rank, transferable, now);
      case Transfer(from, to, id) => TransferKeepsIndex(w, Step(w, c), from, to, id);
      case Burn(holder, id) => BurnKeepsIndex(w, Step(w, c), holder, id);
      case SetAdmin(_, _) => AdministrationKeepsSound(w, c);
      case SetPaused(_, _) => AdministrationKeepsSound(w, c);
    }
  }

  lemma AdministrationKeepsSound(w: World, c: Call)
    requires Sound(w) && (c.SetAdmin? || c.SetPaused?)
    ensures Sound(Step(w, c))
  {
  }

  lemma ReachableIsSound(w: World)
    requires Reachable(w)
    ensures Sound(w)
  {
    var admin :| Runs.ReachableFrom(Step, Start(admin), w);
    forall v, c | Sound(v) ensures Sound(Step(v, c)) {
      StepKeepsSound(v, c);
    }
    Runs.ReachableKeeps(Step, Sound, Start(admin), w);
  }

  // ---- For every run ----

  /** Every unburned certificate is in its owner's list once and in no other. */
  lemma OwnershipIsIndexed(w: World, id: nat, o: Address)
    requires Reachable(w)
    ensures Distinct(ListOf(w.owned, o))
    ensures id in ListOf(w.owned, o) <==> id in w.certs && !w.certs[id].burned && w.certs[id].owner == o
  {
    ReachableIsSound(w);
    assert ListSound(ListOf(w.owned, o), w.certs, o);
  }

  /** Every certificate was minted for exactly one pair of puzzle and first owner,
      and no pair got two. */
  lemma MintedOncePerPuzzle(w: World, id: nat)
    requires Reachable(w) && id in w.certs
    ensures exists k :: k in w.minted && w.minted[k] == id && k.0 == w.certs[id].puzzle
    ensures forall k, l :: k in w.minted && l in w.minted && w.minted[k] == id && w.minted[l] == id ==> k == l
  {
    ReachableIsSound(w);
    var k :| k in w.minted && w.minted[k] == id;
  }

  /** The live certificates of a list, in its order. */
  ghost function Live(certs: map<nat, Certificate>, ids: seq<nat>): seq<Certificate> {
    if ids == [] then [] else
      var before, id := Live(certs, ids[..|ids| - 1]), ids[|ids| - 1];
      if id in certs && !certs[id].burned then before + [certs[id]] else before
  }

  lemma {:induction false} LiveFacts(certs: map<nat, Certificate>, ids: seq<nat>, o: Address)
    requires forall i :: 0 <= i < |ids| ==> IsLiveOf(certs, ids[i], o) && certs[ids[i]].id == ids[i]
    ensures var s := Live(certs, ids);
      |s| == |ids| && forall i :: 0 <= i < |s| ==> ids[i] in certs && s[i] == certs[ids[i]]
    decreases |ids|
  {
    if ids != [] {
      LiveFacts(certs, ids[..|ids| - 1], o);
    }
  }

  /** What a showcase is made of: exactly the owner's live certificates, each once. */
  lemma ShowcaseIsExact(w: World, o: Address)
    requires Reachable(w)
    ensures var s := Live(w.certs, ListOf(w.owned, o));
      && (forall i, j :: 0 <= i < j < |s| ==> s[i].id != s[j].id)
      && (forall id :: id in w.certs ==> (w.certs[id] in s <==> !w.certs[id].burned && w.certs[id].owner == o))
      && (forall c :: c in s ==> c.id in w.certs && w.certs[c.id] == c)
  {
    ReachableIsSound(w);
    var ids := ListOf(w.owned, o);
    assert ListSound(ids, w.certs, o);
    forall i | 0 <= i < |ids| ensures IsLiveOf(w.certs, ids[i], o) {
      assert ids[i] in ids;
    }
    LiveFacts(w.certs, ids, o);
    var s := Live(w.certs, ids);
    forall id | id in w.certs && !w.certs[id].burned && w.certs[id].owner == o ensures w.certs[id] in s {
      assert IsLiveOf(w.certs, id, o);
      var i :| 0 <= i < |ids| && ids[i] == id;
      assert s[i] == w.certs[id];
    }
  }
}
