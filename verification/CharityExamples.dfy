/** Runs in which one charity is matched twice for the same donations, and in which
    the leaderboard is not the top ten donors. */
module CharityExamples {
  import opened Host
  import opened Sums
  import opened QuadraticFunding
  import opened CharityBooks
  import opened CharityRuns
  import opened CharityTopTen

  /** A verified charity without donations, and a pool of 100. */
  lemma Opens(admin: Address) returns (w: World)
    ensures Reachable(w)
         && w == Start(admin).(nextId := 2, charities := map[1 := Charity(admin, true, 0, 0)], lists := map[1 := []],
                               pool := 100, funded := 100)
  {
    StartIsReachable(admin);
    NextIsReachable(Start(admin), Add(admin, admin));
    var w1 := Next(Start(admin), Add(admin, admin)).value;
    NextIsReachable(w1, Verify(admin, 1));
    var w2 := Next(w1, Verify(admin, 1)).value;
    NextIsReachable(w2, Fund(100, true));
    w := Next(w2, Fund(100, true)).value;
  }

  lemma Gives(w: World, donor: Address) returns (w': World)
    requires Reachable(w) && 1 in w.charities && 1 in w.lists && w.charities[1].verified
    requires Get(w.totals, (donor, 1)) == 0 && w.charities[1].contributorCount < 10 && w.charities[1].totalRaised < 10
    requires |w.board| < BOARD_SIZE
    requires forall i :: 0 <= i < |w.board| ==> w.board[i].score == 1 && w.board[i].donor != donor
    ensures Reachable(w') && w' == WithDonation(w, donor, 1, 1, w.board + [Entry(donor, 1)])
  {
    AddScoreAt(w.board, donor, 1, |w.board|);
    assert Descending(w.board + [Entry(donor, 1)]);
    assert Ranked(w.board, donor, 1, w.board + [Entry(donor, 1)]);
    w' := IsAccepted(w, donor, 1, w.board + [Entry(donor, 1)]);
  }

  lemma TwoGifts(admin: Address, a: Address, b: Address) returns (w: World)
    requires a != b
    ensures Reachable(w) && w.admin == admin && w.pool == 100 && w.paid == map[]
    ensures 1 in w.charities && w.charities[1].totalRaised == 2 && 1 in w.lists && |w.lists[1]| == 2
    ensures AmountsOf(w, 1) == [1, 1]
  {
    w := Opens(admin);
    w := Gives(w, a);
    w := Gives(w, b);
    assert w.lists[1] == [a, b];
  }

  lemma MatchOfTwo()
    ensures SumOfRoots([1, 1]) == 2 && Match([1, 1]) == 2
  {
    FloorSqrtIsUnique(1, FloorSqrt(1), 1);
    assert [1, 1][..1] == [1] && [1][..0] == [];
    assert SumOfRoots([1]) == 1 && Sum([1]) == 1;
  }

  /** Two donors of 1 raise 2, for which one payment is at most 2. Two distributions
      in a row pay 4. */
  lemma MatchedTwice(admin: Address, a: Address, b: Address)
    requires a != b
    ensures exists w :: Reachable(w) && 1 in w.charities && w.charities[1].totalRaised == 2
                     && 1 in w.lists && |w.lists[1]| == 2 && Get(w.paid, 1) == 4
  {
    var w := TwoGifts(admin, a, b);
    MatchOfTwo();
    var c := Distribute(admin, 1, true);
    NextIsReachable(w, c);
    var w1 := WithPayment(w, 1, 2);
    assert Next(w, c) == Some(w1);
    assert AmountsOf(w1, 1) == [1, 1];
    NextIsReachable(w1, c);
    var w2 := WithPayment(w1, 1, 2);
    assert Next(w1, c) == Some(w2);
    assert Get(w2.paid, 1) == 4;
  }

  // ---- A dropped donor returns ----

  const RETURNING := Address(100)

  /** Ten other donors, as far as they have given two each. */
  function Twos(n: nat): seq<Entry> {
    seq(n, i requires 0 <= i < n => Entry(Address(i), 2))
  }

  /** The returning donor gave `given`, and after that `n` others gave two each. */
  ghost predicate Stage(w: World, n: nat, given: int, board: seq<Entry>) {
    && Reachable(w) && 1 in w.charities && 1 in w.lists && w.charities[1].verified
    && 0 <= w.charities[1].totalRaised <= 50 && 0 <= w.charities[1].contributorCount <= 20
    && Gave(w.totals, n, given) && w.board == board
  }

  ghost predicate Gave(totals: Totals, n: nat, given: int) {
    && (forall a :: Get(totals, (a, 1)) == if a == RETURNING then given else if a.id < n then 2 else 0)
    && Lifetime(totals, RETURNING) == given
  }

  lemma GaveMore(totals: Totals, donor: Address, amount: int, n: nat, given: int)
    requires Gave(totals, n, given) && n < 100
    requires (donor == Address(n) && amount == 2) || donor == RETURNING
    ensures Gave(Given(totals, (donor, 1), amount), if donor == RETURNING then n else n + 1,
                 if donor == RETURNING then given + amount else given)
  {
    LifetimeAfter(totals, (donor, 1), amount, RETURNING);
  }

  lemma Donates(w: World, donor: Address, amount: int, n: nat, given: int, board: seq<Entry>, board': seq<Entry>)
      returns (w': World)
    requires Stage(w, n, given, board) && 0 < amount <= 2 && ScoreOf(board, donor) <= 2 && given <= 2
    requires w.charities[1].totalRaised <= 48 && w.charities[1].contributorCount < 20
    requires Ranked(board, donor, amount, board')
    requires n < 100 && ((donor == Address(n) && amount == 2) || donor == RETURNING)
    ensures Stage(w', if donor == RETURNING then n else n + 1, if donor == RETURNING then given + amount else given,
                  board')
    ensures w'.charities[1].totalRaised == w.charities[1].totalRaised + amount
    ensures w'.charities[1].contributorCount <= w.charities[1].contributorCount + 1
  {
    w' := IsAccepted(w, donor, amount, board');
    GaveMore(w.totals, donor, amount, n, given);
  }

  lemma IsAccepted(w: World, donor: Address, amount: int, board: seq<Entry>) returns (w': World)
    requires Reachable(w) && Accepts(w, donor, 1, amount, true) && Ranked(w.board, donor, amount, board)
    ensures Reachable(w') && w' == WithDonation(w, donor, 1, amount, board)
  {
    NextIsReachable(w, Donate(donor, 1, amount, true, board));
    w' := WithDonation(w, donor, 1, amount, board);
  }

  lemma RankedBy(b: seq<Entry>, donor: Address, amount: int, full: seq<Entry>)
    requires Sorts(AddScore(b, donor, amount), full)
    ensures Ranked(b, donor, amount, Cut(full))
  {
  }

  /** One more donor of two goes before the returning donor's one. */
  lemma NextTwo(n: nat)
    requires n < 10
    ensures Ranked(Twos(n) + [Entry(RETURNING, 1)], Address(n), 2, Cut(Twos(n + 1) + [Entry(RETURNING, 1)]))
    ensures ScoreOf(Twos(n) + [Entry(RETURNING, 1)], Address(n)) == 0
  {
    var b := Twos(n) + [Entry(RETURNING, 1)];
    AddScoreAt(b, Address(n), 2, |b|);
    assert Twos(n + 1) == Twos(n) + [Entry(Address(n), 2)];
    RankedBy(b, Address(n), 2, Twos(n + 1) + [Entry(RETURNING, 1)]);
  }

  lemma OneGives(w: World, n: nat) returns (w': World)
    requires n <= 8 && Stage(w, n, 1, Twos(n) + [Entry(RETURNING, 1)])
    requires w.charities[1].totalRaised == 1 + 2 * n && w.charities[1].contributorCount <= 1 + n
    ensures Stage(w', n + 1, 1, Twos(n + 1) + [Entry(RETURNING, 1)])
    ensures w'.charities[1].totalRaised == 3 + 2 * n && w'.charities[1].contributorCount <= 2 + n
  {
    NextTwo(n);
    w' := Donates(w, Address(n), 2, n, 1, Twos(n) + [Entry(RETURNING, 1)], Twos(n + 1) + [Entry(RETURNING, 1)]);
  }

  lemma {:induction false} OthersGive(w: World, n: nat) returns (w': World)
    requires n <= 9 && Stage(w, 0, 1, [Entry(RETURNING, 1)])
    requires w.charities[1].totalRaised == 1 && w.charities[1].contributorCount <= 1
    ensures Stage(w', n, 1, Twos(n) + [Entry(RETURNING, 1)])
    ensures w'.charities[1].totalRaised == 1 + 2 * n && w'.charities[1].contributorCount <= 1 + n
    decreases n
  {
    if n == 0 {
      assert Twos(0) + [Entry(RETURNING, 1)] == [Entry(RETURNING, 1)];
      w' := w;
    } else {
      var v := OthersGive(w, n - 1);
      w' := OneGives(v, n - 1);
    }
  }

  /** The tenth donor of two pushes the returning donor off the board. */
  lemma DropsReturning(w: World) returns (w': World)
    requires Stage(w, 9, 1, Twos(9) + [Entry(RETURNING, 1)])
    requires w.charities[1].totalRaised == 19 && w.charities[1].contributorCount <= 10
    ensures Stage(w', 10, 1, Twos(10))
    ensures w'.charities[1].totalRaised == 21 && w'.charities[1].contributorCount <= 11
  {
    NextTwo(9);
    assert Cut(Twos(10) + [Entry(RETURNING, 1)]) == Twos(10);
    w' := Donates(w, Address(9), 2, 9, 1, Twos(9) + [Entry(RETURNING, 1)], Twos(10));
  }

  lemma NoRoomForTwo()
    ensures Ranked(Twos(10), RETURNING, 2, Twos(10)) && ScoreOf(Twos(10), RETURNING) == 0
  {
    var b, full := Twos(10), Twos(10) + [Entry(RETURNING, 2)];
    AddScoreAt(b, RETURNING, 2, 10);
    assert Descending(full) by {
      assert forall i :: 0 <= i < |full| ==> full[i].score == 2;
    }
    RankedBy(b, RETURNING, 2, full);
    assert full[..|full| - 1] == b;
  }

  lemma ReturnsInVain(w: World) returns (w': World)
    requires Stage(w, 10, 1, Twos(10))
    requires w.charities[1].totalRaised == 21 && w.charities[1].contributorCount <= 11
    ensures Stage(w', 10, 3, Twos(10))
  {
    NoRoomForTwo();
    w' := Donates(w, RETURNING, 2, 10, 1, Twos(10), Twos(10));
  }

  lemma FirstGift(admin: Address) returns (w: World)
    ensures Stage(w, 0, 1, [Entry(RETURNING, 1)])
    ensures w.charities[1].totalRaised == 1 && w.charities[1].contributorCount <= 1
  {
    w := Opens(admin);
    NothingGiven(RETURNING);
    AddScoreAt([], RETURNING, 1, 0);
    RankedBy([], RETURNING, 1, [Entry(RETURNING, 1)]);
    assert Stage(w, 0, 0, []);
    w := Donates(w, RETURNING, 1, 0, 0, [], [Entry(RETURNING, 1)]);
  }

  lemma NothingGiven(a: Address)
    ensures Lifetime(map[], a) == 0
  {
    assert GiftsOf(map[], a) == map[];
  }

  /** A donor gives one, is pushed off the board by ten donors of two, and gives two
      more: it gave three, more than anybody on the board, and is not on it. */
  lemma DroppedDonorReturns(admin: Address)
    ensures exists w :: Reachable(w) && Lifetime(w.totals, RETURNING) == 3 && w.board == Twos(10)
  {
    var w := FirstGift(admin);
    w := OthersGive(w, 9);
    w := DropsReturning(w);
    w := ReturnsInVain(w);
  }
}
