/** When the leaderboard really is the top ten donors. It keeps the scores of those
    on it only, so a donor who was dropped starts again at zero. */
module CharityTopTen {
  import opened Host
  import opened Sums
  import opened CharityBooks
  import opened CharityRuns
  import Runs

  ghost predicate Shows(b: seq<Entry>, donor: Address) {
    exists i :: 0 <= i < |b| && b[i].donor == donor
  }

  /** The scores are the lifetime donations. */
  ghost predicate Exact(b: seq<Entry>, totals: Totals) {
    forall i :: 0 <= i < |b| ==> b[i].score == Lifetime(totals, b[i].donor)
  }

  /** Whoever gave something and is left out faces a full board on which nobody gave
      less. */
  ghost predicate Deserved(b: seq<Entry>, totals: Totals, donor: Address) {
    Lifetime(totals, donor) <= 0 || Shows(b, donor)
    || (|b| == BOARD_SIZE && forall i :: 0 <= i < |b| ==> b[i].score >= Lifetime(totals, donor))
  }

  ghost predicate IsTopTen(b: seq<Entry>, totals: Totals) {
    && Descending(b) && OneEach(b) && |b| <= BOARD_SIZE && Exact(b, totals)
    && forall donor :: Deserved(b, totals, donor)
  }

  /** The donor is listed, or never gave before, or is left out for good reason even
      with everything ever given. */
  ghost predicate DonationFits(b: seq<Entry>, totals: Totals, donor: Address, amount: int) {
    || Shows(b, donor) || Lifetime(totals, donor) == 0
    || (|b| == BOARD_SIZE && forall i :: 0 <= i < |b| ==> b[i].score >= Lifetime(totals, donor) + amount)
  }

  // ---- The updated board and its ranking ----

  /** `full` holds the entries of `added` in falling order. */
  ghost predicate Sorts(added: seq<Entry>, full: seq<Entry>) {
    multiset(full) == multiset(added) && Descending(full)
  }

  function Cut(full: seq<Entry>): seq<Entry> {
    if |full| > BOARD_SIZE then full[..|full| - 1] else full
  }

  lemma SortsMembers(added: seq<Entry>, full: seq<Entry>)
    requires Sorts(added, full)
    ensures |full| == |added| && forall e :: e in full <==> e in added
  {
    assert |full| == |multiset(full)| == |multiset(added)| == |added|;
    forall e ensures e in full <==> e in added {
      assert e in full <==> e in multiset(full);
      assert e in added <==> e in multiset(added);
    }
  }

  lemma SortsOneEach(added: seq<Entry>, full: seq<Entry>)
    requires Sorts(added, full) && OneEach(added)
    ensures OneEach(full)
  {
    SortsMembers(added, full);
    forall i, j | 0 <= i < j < |full| ensures full[i].donor != full[j].donor {
      if full[i] == full[j] {
        CountTwo(full, i, j);
        CountOne(added, full[i]);
        assert false;
      }
      assert full[i] in added && full[j] in added;
    }
  }

  /** An entry is on the cut board or is the last of eleven. */
  lemma CutDropsLast(full: seq<Entry>, e: Entry)
    requires Descending(full) && |full| <= BOARD_SIZE + 1 && e in full
    ensures e in Cut(full)
         || (|full| == BOARD_SIZE + 1 && e == full[BOARD_SIZE]
             && forall i :: 0 <= i < |Cut(full)| ==> Cut(full)[i].score >= e.score)
  {
    var i :| 0 <= i < |full| && full[i] == e;
    if i < |Cut(full)| {
      assert Cut(full)[i] == e;
    }
  }

  // ---- One donation ----

  /** A donation by somebody listed or new keeps every score exact. */
  lemma AddedIsExact(b: seq<Entry>, before: Totals, id: nat, donor: Address, amount: int)
    requires Exact(b, before) && OneEach(b) && (Shows(b, donor) || Lifetime(before, donor) == 0)
    ensures var added := AddScore(b, donor, amount);
      OneEach(added) && Exact(added, Given(before, (donor, id), amount)) && Shows(added, donor)
  {
    var i := EntryOf(b, donor);
    AddScoreAt(b, donor, amount, i);
    LifetimesAfter(before, (donor, id), amount);
    assert AddScore(b, donor, amount)[i].donor == donor;
  }

  lemma AddedKeepsDonors(b: seq<Entry>, donor: Address, amount: int, a: Address)
    ensures Shows(AddScore(b, donor, amount), a) <==> Shows(b, a) || a == donor
  {
    var i := EntryOf(b, donor);
    var added := AddScore(b, donor, amount);
    AddScoreAt(b, donor, amount, i);
    if k :| 0 <= k < |b| && b[k].donor == a { assert added[k].donor == a; }
    assert added[i].donor == donor;
    if k :| 0 <= k < |added| && added[k].donor == a { assert k < |b| ==> b[k].donor == a; }
  }

  /** The other entries stay as they were. */
  lemma AddedMembers(b: seq<Entry>, donor: Address, amount: int, e: Entry)
    requires e in AddScore(b, donor, amount) && e.donor != donor
    ensures e in b
  {
    var i := EntryOf(b, donor);
    AddScoreAt(b, donor, amount, i);
  }

  lemma CutIsExact(added: seq<Entry>, full: seq<Entry>, totals: Totals)
    requires Sorts(added, full) && |added| <= BOARD_SIZE + 1 && OneEach(added) && Exact(added, totals)
    ensures var b' := Cut(full); Descending(b') && OneEach(b') && |b'| <= BOARD_SIZE && Exact(b', totals)
  {
    SortsMembers(added, full);
    SortsOneEach(added, full);
    forall i | 0 <= i < |full| ensures full[i].score == Lifetime(totals, full[i].donor) {
      assert full[i] in added;
    }
  }

  /** Whoever was on the updated board is on the cut one or rightly left out. */
  lemma ShownIsDeserved(added: seq<Entry>, full: seq<Entry>, totals: Totals, a: Address)
    requires Sorts(added, full) && |added| <= BOARD_SIZE + 1 && Exact(added, totals) && Shows(added, a)
    ensures Deserved(Cut(full), totals, a)
  {
    SortsMembers(added, full);
    var k :| 0 <= k < |added| && added[k].donor == a;
    CutDropsLast(full, added[k]);
    if added[k] in Cut(full) {
      var i :| 0 <= i < |Cut(full)| && Cut(full)[i] == added[k];
      assert Cut(full)[i].donor == a;
    }
  }

  /** Ten entries of at least `least` leave none below it on the cut board, whatever
      the donor's own is. */
  lemma CutKeepsLeast(b: seq<Entry>, donor: Address, amount: int, full: seq<Entry>, least: int)
    requires |b| == BOARD_SIZE && OneEach(b) && forall i :: 0 <= i < |b| ==> b[i].score >= least
    requires amount > 0 && Sorts(AddScore(b, donor, amount), full)
    ensures |Cut(full)| == BOARD_SIZE && forall i :: 0 <= i < |Cut(full)| ==> Cut(full)[i].score >= least
  {
    var added := AddScore(b, donor, amount);
    var k := EntryOf(b, donor);
    AddScoreAt(b, donor, amount, k);
    SortsMembers(added, full);
    assert OneEach(added);
    SortsOneEach(added, full);
    forall i | 0 <= i < |Cut(full)| ensures full[i].score >= least {
      assert full[i] in added;
      if k == |b| && full[i].donor == donor {
        assert full[BOARD_SIZE] in added && full[BOARD_SIZE].donor != donor;
        AddedMembers(b, donor, amount, full[BOARD_SIZE]);
      }
    }
  }

  /** Whoever was rightly left out before and did not give is so again. */
  lemma UnshownIsDeserved(b: seq<Entry>, before: Totals, id: nat, donor: Address, amount: int, full: seq<Entry>,
                          a: Address)
    requires OneEach(b) && Deserved(b, before, a) && !Shows(b, a) && a != donor && amount > 0
    requires Sorts(AddScore(b, donor, amount), full)
    ensures Deserved(Cut(full), Given(before, (donor, id), amount), a)
  {
    LifetimeAfter(before, (donor, id), amount, a);
    if Lifetime(before, a) > 0 {
      CutKeepsLeast(b, donor, amount, full, Lifetime(before, a));
    }
  }

  /** A listed or new donor's donation leaves the top ten. */
  lemma KnownDonorKeepsTopTen(b: seq<Entry>, before: Totals, id: nat, donor: Address, amount: int, full: seq<Entry>)
    requires IsTopTen(b, before) && amount > 0 && (Shows(b, donor) || Lifetime(before, donor) == 0)
    requires Sorts(AddScore(b, donor, amount), full)
    ensures IsTopTen(Cut(full), Given(before, (donor, id), amount))
  {
    var added, totals := AddScore(b, donor, amount), Given(before, (donor, id), amount);
    AddedIsExact(b, before, id, donor, amount);
    AddScoreLength(b, donor, amount);
    CutIsExact(added, full, totals);
    forall a ensures Deserved(Cut(full), totals, a) {
      AddedKeepsDonors(b, donor, amount, a);
      if Shows(added, a) {
        ShownIsDeserved(added, full, totals, a);
      } else {
        assert Deserved(b, before, a);
        UnshownIsDeserved(b, before, id, donor, amount, full, a);
      }
    }
  }

  lemma LowestIsLast(b: seq<Entry>, own: Entry, full: seq<Entry>)
    requires |b| == BOARD_SIZE && (forall i :: 0 <= i < |b| ==> b[i].score > own.score) && Sorts(b + [own], full)
    ensures |full| == BOARD_SIZE + 1 && full[BOARD_SIZE] == own
  {
    SortsMembers(b + [own], full);
    assert own == (b + [own])[|b|] && own in full;
    var k :| 0 <= k < |full| && full[k] == own;
    assert full[BOARD_SIZE].score <= own.score;
    assert full[BOARD_SIZE] in b + [own];
  }

  /** With a full board and a donation below all of it, the donor's entry is the one
      that is dropped, and the others stay. */
  lemma LowDonationIsDropped(b: seq<Entry>, donor: Address, amount: int, full: seq<Entry>)
    requires |b| == BOARD_SIZE && !Shows(b, donor) && forall i :: 0 <= i < |b| ==> b[i].score > amount
    requires Sorts(AddScore(b, donor, amount), full)
    ensures multiset(Cut(full)) == multiset(b)
  {
    var own := Entry(donor, amount);
    AddScoreAt(b, donor, amount, |b|);
    LowestIsLast(b, own, full);
    calc {
      multiset(b) + multiset{own};
      multiset(b + [own]);
      multiset(full);
      { assert full == Cut(full) + [own]; }
      multiset(Cut(full)) + multiset{own};
    }
    SameRest(multiset(b), multiset(Cut(full)), own);
  }

  lemma SameRest(m: multiset<Entry>, m': multiset<Entry>, e: Entry)
    requires m + multiset{e} == m' + multiset{e}
    ensures m == m'
  {
    assert m == m + multiset{e} - multiset{e};
    assert m' == m' + multiset{e} - multiset{e};
  }

  lemma SameEntriesKeepTopTen(b: seq<Entry>, b': seq<Entry>, totals: Totals)
    requires IsTopTen(b, totals) && Sorts(b, b')
    ensures IsTopTen(b', totals)
  {
    SortsMembers(b, b');
    SortsOneEach(b, b');
    forall i | 0 <= i < |b'| ensures b'[i].score == Lifetime(totals, b'[i].donor) {
      assert b'[i] in b;
    }
    forall a ensures Deserved(b', totals, a) {
      assert Deserved(b, totals, a);
      if k :| 0 <= k < |b| && b[k].donor == a {
        assert b[k] in b';
      } else if Lifetime(totals, a) > 0 {
        forall i | 0 <= i < |b'| ensures b'[i].score >= Lifetime(totals, a) {
          assert b'[i] in b;
        }
      }
    }
  }

  lemma UnlistedGiftKeepsTopTen(b: seq<Entry>, before: Totals, id: nat, donor: Address, amount: int)
    requires IsTopTen(b, before) && !Shows(b, donor) && DonationFits(b, before, donor, amount)
    requires Lifetime(before, donor) != 0
    ensures IsTopTen(b, Given(before, (donor, id), amount))
  {
    var totals := Given(before, (donor, id), amount);
    LifetimesAfter(before, (donor, id), amount);
    assert forall i :: 0 <= i < |b| ==> b[i].donor != donor;
    forall a ensures Deserved(b, totals, a) {
      assert Deserved(b, before, a);
    }
  }

  /** A returning donor whose donation does not fit spoils the board: listed with too
      little, or left out in favour of somebody who gave less. */
  lemma ReturningDonorSpoils(b: seq<Entry>, before: Totals, id: nat, donor: Address, amount: int, full: seq<Entry>)
    requires IsTopTen(b, before) && amount > 0 && !DonationFits(b, before, donor, amount)
    requires Lifetime(before, donor) >= 0 && Sorts(AddScore(b, donor, amount), full)
    ensures !IsTopTen(Cut(full), Given(before, (donor, id), amount))
  {
    var added, own := AddScore(b, donor, amount), Entry(donor, amount);
    var totals, b' := Given(before, (donor, id), amount), Cut(full);
    AddScoreAt(b, donor, amount, |b|);
    SortsMembers(added, full);
    LifetimeAfter(before, (donor, id), amount, donor);
    if i :| 0 <= i < |b'| && b'[i].donor == donor {
      assert b'[i] in added;
      assert b'[i] == own;
      assert b'[i].score != Lifetime(totals, donor);
    } else {
      assert own == added[|b|] && own in full;
      CutDropsLast(full, own);
      assert |b| == BOARD_SIZE;
      var k :| 0 <= k < |b| && b[k].score < Lifetime(totals, donor);
      assert b[k] == added[k] && b[k] in full;
      CutDropsLast(full, b[k]);
      var j :| 0 <= j < |b'| && b'[j] == b[k];
      assert !Deserved(b', totals, donor);
    }
  }

  /** From the true top ten, a donation leads to the true top ten exactly if it
      fits. */
  lemma DonationKeepsTopTenIff(b: seq<Entry>, before: Totals, id: nat, donor: Address, amount: int, b': seq<Entry>)
    requires IsTopTen(b, before) && amount > 0 && Lifetime(before, donor) >= 0 && Ranked(b, donor, amount, b')
    ensures IsTopTen(b', Given(before, (donor, id), amount)) <==> DonationFits(b, before, donor, amount)
  {
    var full :| multiset(full) == multiset(AddScore(b, donor, amount)) && Descending(full)
             && b' == if |full| > BOARD_SIZE then full[..|full| - 1] else full;
    assert Sorts(AddScore(b, donor, amount), full) && b' == Cut(full);
    if Shows(b, donor) || Lifetime(before, donor) == 0 {
      KnownDonorKeepsTopTen(b, before, id, donor, amount, full);
    } else if DonationFits(b, before, donor, amount) {
      LowDonationIsDropped(b, donor, amount, full);
      UnlistedGiftKeepsTopTen(b, before, id, donor, amount);
      SameEntriesKeepTopTen(b, b', Given(before, (donor, id), amount));
    } else {
      ReturningDonorSpoils(b, before, id, donor, amount, full);
    }
  }

  // ---- For every run ----

  /** While the board is the true top ten, the next call changes that exactly if it
      is an accepted donation that does not fit. */
  lemma TopTenStraysIff(w: World, c: Call)
    requires Reachable(w) && IsTopTen(w.board, w.totals)
    ensures IsTopTen(Step(w, c).board, Step(w, c).totals) <==>
      (c.Donate? && Next(w, c).Some? ==> DonationFits(w.board, w.totals, c.donor, c.amount))
  {
    if c.Donate? && Next(w, c).Some? {
      assert NonNegative(w.totals) by { ReachableIsSound(w); }
      TotalNonNegative(GiftsOf(w.totals, c.donor));
      DonationKeepsTopTenIff(w.board, w.totals, c.id, c.donor, c.amount, c.board);
    }
  }

  ghost predicate AllFit(w: World, calls: seq<Call>)
    decreases |calls|
  {
    calls == []
    || ((calls[0].Donate? && Next(w, calls[0]).Some? ==>
           DonationFits(w.board, w.totals, calls[0].donor, calls[0].amount))
        && AllFit(Step(w, calls[0]), calls[1..]))
  }

  lemma {:induction false} FittingRunKeepsTopTen(w: World, calls: seq<Call>)
    requires Reachable(w) && IsTopTen(w.board, w.totals) && AllFit(w, calls)
    ensures var v := Runs.Run(Step, w, calls); IsTopTen(v.board, v.totals)
    decreases |calls|
  {
    if calls != [] {
      TopTenStraysIff(w, calls[0]);
      if Next(w, calls[0]).Some? { NextIsReachable(w, calls[0]); }
      FittingRunKeepsTopTen(Step(w, calls[0]), calls[1..]);
    }
  }

  /** In every run whose donations all fit, the board is the top ten donors with
      their lifetime donations. */
  lemma BoardIsTopTen(admin: Address, calls: seq<Call>)
    requires AllFit(Start(admin), calls)
    ensures var v := Runs.Run(Step, Start(admin), calls); IsTopTen(v.board, v.totals)
  {
    StartIsReachable(admin);
    forall a ensures Lifetime(map[], a) == 0 {
      assert GiftsOf(map[], a) == map[];
    }
    FittingRunKeepsTopTen(Start(admin), calls);
  }
}
