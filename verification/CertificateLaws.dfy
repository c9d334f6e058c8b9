/** What each accepted call of the certificate contract does: who gets a certificate,
    how rare it is, and whose list it is on. */
module CertificateLaws {
  import opened Host
  import opened Showcase
  import opened CertificateRuns

  ghost predicate OnlyCertificate(w: World, w': World, id: nat) {
    && id in w'.certs && w'.certs == w.certs[id := w'.certs[id]]
    && w'.admin == w.admin && w'.paused == w.paused
  }

  /** Up to a minute is legendary, five minutes epic, a quarter of an hour rare, an hour
      uncommon, and the rest common. */
  lemma RarityIsByTime(seconds: nat)
    ensures var r := FromSeconds(seconds);
      && (r == Legendary <==> seconds <= 60) && (r == Epic <==> 60 < seconds <= 300)
      && (r == Rare <==> 300 < seconds <= 900) && (r == Uncommon <==> 900 < seconds <= 3600)
      && (r == Common <==> 3600 < seconds)
  {
  }

  /** The administrator mints at most one certificate per puzzle and owner; it goes to
      that owner, at the end of the owner's list and of nobody else's. */
  lemma MintGoesToOwner(w: World, caller: Address, owner: Address, puzzle: string, seconds: nat, rank: nat,
                        transferable: bool, now: nat)
    ensures var next := Next(w, Mint(caller, owner, puzzle, seconds, rank, transferable, now));
      && (next.Some? <==> !w.paused && caller == w.admin && (puzzle, owner) !in w.minted && w.count < U64_MAX)
      && (next.Some? ==>
            var w', id := next.value, w.count + 1;
            && OnlyCertificate(w, w', id) && w'.count == id && w'.minted == w.minted[(puzzle, owner) := id]
            && w'.certs[id] == Certificate(id, owner, puzzle, now, seconds, rank, FromSeconds(seconds), transferable,
                                           false)
            && forall o :: ListOf(w'.owned, o) == ListOf(w.owned, o) + if o == owner then [id] else [])
  {
  }

  /** A live, transferable certificate goes from its owner's list to the end of the
      recipient's, and every other certificate stays where it is. */
  lemma TransferMoves(w: World, from: Address, to: Address, id: nat)
    requires Reachable(w)
    ensures var next := Next(w, Transfer(from, to, id));
      && (next.Some? <==> !w.paused && id in w.certs && !w.certs[id].burned && w.certs[id].owner == from
                          && w.certs[id].transferable)
      && (next.Some? ==>
            var w' := next.value;
            && OnlyCertificate(w, w', id) && w'.count == w.count && w'.minted == w.minted
            && w'.certs[id] == w.certs[id].(owner := to)
            && (forall o :: o != from && o != to ==> ListOf(w'.owned, o) == ListOf(w.owned, o))
            && (var list := ListOf(w'.owned, to); list != [] && list[|list| - 1] == id)
            && (forall o, k: nat :: k in ListOf(w'.owned, o) <==>
                                 if k == id then o == to else k in ListOf(w.owned, o)))
  {
    var c := Transfer(from, to, id);
    if Next(w, c).Some? {
      NextIsReachable(w, c);
      var w' := Next(w, c).value;
      forall o, k: nat ensures k in ListOf(w'.owned, o) <==> if k == id then o == to else k in ListOf(w.owned, o) {
        OwnershipIsIndexed(w, k, o);
        OwnershipIsIndexed(w', k, o);
      }
    }
  }

  /** The owner burns a live certificate, which leaves the owner's list; the record and
      all other certificates stay. */
  lemma BurnRemoves(w: World, holder: Address, id: nat)
    requires Reachable(w)
    ensures var next := Next(w, Burn(holder, id));
      && (next.Some? <==> id in w.certs && !w.certs[id].burned && w.certs[id].owner == holder)
      && (next.Some? ==>
            var w' := next.value;
            && OnlyCertificate(w, w', id) && w'.count == w.count && w'.minted == w.minted
            && w'.certs[id] == w.certs[id].(burned := true)
            && (forall o :: o != holder ==> ListOf(w'.owned, o) == ListOf(w.owned, o))
            && (forall o, k: nat :: k in ListOf(w'.owned, o) <==> k != id && k in ListOf(w.owned, o)))
  {
    var c := Burn(holder, id);
    if Next(w, c).Some? {
      NextIsReachable(w, c);
      var w' := Next(w, c).value;
      forall o, k: nat ensures k in ListOf(w'.owned, o) <==> k != id && k in ListOf(w.owned, o) {
        OwnershipIsIndexed(w, k, o);
        OwnershipIsIndexed(w', k, o);
      }
    }
  }
}
