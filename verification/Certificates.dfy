/** The completion-certificate contract: storage updated in place, proved against
    the state machine of CertificateRuns. */
module Certificates {
  import opened Host
  import opened Showcase
  import opened CertificateRuns

  class Certificates {
    var admin: Address
    var paused: bool
    var count: nat
    var certs: map<nat, Certificate>
    var owned: map<Address, seq<nat>>
    var minted: map<(string, Address), nat>
    ghost var world: World

    ghost predicate Valid()
      reads this
    {
      && Reachable(world)
      && admin == world.admin && paused == world.paused && count == world.count
      && certs == world.certs && owned == world.owned && minted == world.minted
    }

    constructor (admin: Address)
      ensures Valid() && world == Start(admin)
    {
      this.admin, paused, count, certs, owned, minted := admin, false, 0, map[], map[], map[];
      world := Start(admin);
      new;
      StartIsReachable(admin);
    }

    method SetAdmin(caller: Address, newAdmin: Address) returns (ok: bool)
      requires Valid()
      modifies this
      ensures Valid() && Commits(old(world), AfterSetAdmin(old(world), caller, newAdmin), world, ok)
    {
      ok := caller == admin;
      if ok {
        NextIsReachable(world, Call.SetAdmin(caller, newAdmin));
        world := AfterSetAdmin(world, caller, newAdmin).value;
        admin := newAdmin;
      }
    }

    method SetPaused(caller: Address, paused: bool) returns (ok: bool)
      requires Valid()
      modifies this
      ensures Valid() && Commits(old(world), AfterSetPaused(old(world), caller, paused), world, ok)
    {
      ok := caller == admin;
      if ok {
        NextIsReachable(world, Call.SetPaused(caller, paused));
        world := AfterSetPaused(world, caller, paused).value;
        this.paused := paused;
      }
    }

    method MintCertificate(caller: Address, owner: Address, puzzle: string, seconds: u64, rank: u64,
                           transferable: bool, now: u64) returns (id: Option<nat>)
      requires Valid()
      modifies this
      ensures Valid()
      ensures Commits(old(world), AfterMint(old(world), caller, owner, puzzle, seconds, rank, transferable, now),
                      world, id.Some?)
      ensures id.Some? ==> id.value == count == old(count) + 1
    {
      if paused || caller != admin || (puzzle, owner) in minted || count >= U64_MAX {
        return None;
      }
      NextIsReachable(world, Call.Mint(caller, owner, puzzle, seconds, rank, transferable, now));
      world := AfterMint(world, caller, owner, puzzle, seconds, rank, transferable, now).value;
      count := count + 1;
      certs := certs[count := Certificate(count, owner, puzzle, now, seconds, rank, FromSeconds(seconds), transferable,
                                          false)];
      minted := minted[(puzzle, owner) := count];
      AppendToList(owner, count);
      id := Some(count);
    }

    method AppendToList(owner: Address, id: nat)
      modifies this`owned
      ensures owned == old(owned)[owner := ListOf(old(owned), owner) + [id]]
    {
      owned := owned[owner := ListOf(owned, owner) + [id]];
    }

    /** Finds the position of the certificate and takes it out of the list. */
    method RemoveFromList(owner: Address, id: nat)
      modifies this`owned
      ensures owned == old(owned)[owner := Removed(ListOf(old(owned), owner), id)]
    {
      var list := ListOf(owned, owner);
      var i := 0;
      while i < |list| && list[i] != id
        invariant 0 <= i <= |list|
        invariant Removed(list, id) == list[..i] + Removed(list[i..], id)
      {
        assert list[i..][1..] == list[i + 1..];
        i := i + 1;
      }
      if i < |list| {
        assert list[i..][1..] == list[i + 1..];
        assert Removed(list[i..], id) == list[i + 1..];
        list := list[..i] + list[i + 1..];
      } else {
        assert list[i..] == [] && list[..i] + [] == list;
      }
      owned := owned[owner := list];
    }

    method Transfer(from: Address, to: Address, id: nat) returns (ok: bool)
      requires Valid()
      modifies this
      ensures Valid() && Commits(old(world), AfterTransfer(old(world), from, to, id), world, ok)
    {
      if paused || id !in certs || certs[id].burned || certs[id].owner != from || !certs[id].transferable {
        return false;
      }
      NextIsReachable(world, Call.Transfer(from, to, id));
      world := AfterTransfer(world, from, to, id).value;
      RemoveFromList(from, id);
      AppendToList(to, id);
      certs := certs[id := certs[id].(owner := to)];
      ok := true;
    }

    method Burn(owner: Address, id: nat) returns (ok: bool)
      requires Valid()
      modifies this
      ensures Valid() && Commits(old(world), AfterBurn(old(world), owner, id), world, ok)
    {
      if id !in certs || certs[id].owner != owner || certs[id].burned {
        return false;
      }
      NextIsReachable(world, Call.Burn(owner, id));
      world := AfterBurn(world, owner, id).value;
      certs := certs[id := certs[id].(burned := true)];
      RemoveFromList(owner, id);
      ok := true;
    }

    method LiveCertificates(ids: seq<nat>) returns (live: seq<Certificate>)
      ensures live == Live(certs, ids)
    {
      live := [];
      for i := 0 to |ids|
        invariant live == Live(certs, ids[..i])
      {
        assert ids[..i + 1][..i] == ids[..i];
        if ids[i] in certs && !certs[ids[i]].burned {
          live := live + [certs[ids[i]]];
        }
      }
      assert ids[..|ids|] == ids;
    }

    /** The owner's live certificates, the rarest first and otherwise in the order
        of the list; nothing is lost and nothing else gets in. */
    method GetShowcase(owner: Address) returns (r: seq<Certificate>)
      requires Valid()
      ensures r == Ranked(Live(certs, ListOf(owned, owner)))
      ensures Sorted(r) && multiset(r) == multiset(Live(certs, ListOf(owned, owner)))
      ensures forall id :: id in certs ==> (certs[id] in r <==> !certs[id].burned && certs[id].owner == owner)
      ensures forall c :: c in r ==> c.id in certs && certs[c.id] == c
    {
      var live := LiveCertificates(ListOf(owned, owner));
      var a := new Certificate[|live|](i requires 0 <= i < |live| => live[i]);
      assert a[..] == live;
      SortByRarity(a);
      r := a[..];
      RankedSize(live);
      RankedIsSorted(live);
      ShowcaseIsExact(world, owner);
      assert forall c :: c in r <==> c in multiset(r);
      assert forall c :: c in live <==> c in multiset(live);
    }
  }
}
