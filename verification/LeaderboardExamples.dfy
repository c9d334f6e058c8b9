/** Runs in which the leaderboard departs from what it is for: changed caps and
    replaced scores that lose better players, a changed length that mixes days, and
    a player counted twice. */
module LeaderboardExamples {
  import opened Host
  import opened Sums
  import opened TopN
  import opened LeaderboardBooks
  import opened LeaderboardRuns
  import opened LeaderboardPeriods

  ghost predicate Small(t: Table, n: nat) {
    forall p :: p in t ==> t[p] <= n
  }

  /** The administrator may submit, and nothing is near an overflow. */
  ghost predicate Open(w: World, n: nat) {
    && !w.config.paused && w.config.day > 0 && w.config.week > 0
    && AllSmall(w.books, n)
  }

  function AllTimeList(w: World): seq<Entry> {
    ListAt(w.books.boards.lists, ALL_TIME)
  }

  function AllTimeTable(w: World): Table {
    TableAt(w.books.boards.scores, ALL_TIME)
  }

  /** A reachable contract with this cap, all-time list and all-time table. */
  ghost predicate Shows(w: World, cap: nat, list: seq<Entry>, table: Table) {
    Reachable(w) && w.config.cap == cap && AllTimeList(w) == list && AllTimeTable(w) == table
  }

  lemma CountedStaysSmall(b: Boards, s: Submission, cap: nat, n: nat)
    requires s.score >= 0 && forall window :: Small(TableAt(b.scores, window), n)
    ensures forall window :: Small(TableAt(CountedAll(b, s, cap).scores, window), n + s.score)
  {
    forall window ensures Small(TableAt(CountedAll(b, s, cap).scores, window), n + s.score) {
      assert Small(TableAt(b.scores, window), n);
      CountedAllTable(b, s, cap, window);
    }
  }

  /** What an accepted submission does to the all-time board and the totals. */
  ghost predicate Effect(b: Books, b': Books, p: Address, score: nat, cap: nat) {
    var table, list := TableAt(b.boards.scores, ALL_TIME), ListAt(b.boards.lists, ALL_TIME);
    && TableAt(b'.boards.scores, ALL_TIME) == table[p := Get(table, p) + score]
    && ListAt(b'.boards.lists, ALL_TIME) == Refreshed(list, Entry(p, Get(table, p) + score, 0), cap)
    && b'.allTime == b.allTime[p := Get(b.allTime, p) + score]
    && b'.totalPlayers == b.totalPlayers + if Get(b.allTime, p) == 0 then 1 else 0
  }

  lemma ListEffect(b: Boards, s: Submission, cap: nat)
    ensures var total := Get(TableAt(b.scores, ALL_TIME), s.player) + s.score;
      ListAt(CountedAll(b, s, cap).lists, ALL_TIME)
      == Refreshed(ListAt(b.lists, ALL_TIME), Entry(s.player, total, s.at), cap)
  {
    assert Scored(b, s, AllTime) == Get(TableAt(b.scores, ALL_TIME), s.player) + s.score;
    CountedAllList(b, s, cap, ALL_TIME);
  }

  lemma RecordedEffect(b: Books, s: Submission, cap: nat)
    requires s.score >= 0 && s.at == 0
    ensures Effect(b, Recorded(b, s, cap), s.player, s.score, cap)
  {
    CountedAllTable(b.boards, s, cap, ALL_TIME);
    ListEffect(b.boards, s, cap);
    TotalledEffect(b, s, CountedAll(b.boards, s, cap), cap);
  }

  lemma TotalledEffect(b: Books, s: Submission, boards: Boards, cap: nat)
    requires s.score >= 0
    requires TableAt(boards.scores, ALL_TIME) == Credited(TableAt(b.boards.scores, ALL_TIME), s, ALL_TIME)
    requires ListAt(boards.lists, ALL_TIME)
          == Refreshed(ListAt(b.boards.lists, ALL_TIME),
                       Entry(s.player, Get(TableAt(b.boards.scores, ALL_TIME), s.player) + s.score, 0), cap)
    ensures Effect(b, Totalled(b, s, boards), s.player, s.score, cap)
  {
  }

  ghost predicate AllSmall(b: Books, n: nat) {
    (forall window :: Small(TableAt(b.boards.scores, window), n)) && Small(b.allTime, n) && b.totalPlayers <= n
  }

  lemma StaysSmall(b: Books, s: Submission, cap: nat, n: nat)
    requires s.score >= 0 && AllSmall(b, n)
    ensures AllSmall(Recorded(b, s, cap), n + s.score + 1)
  {
    var b' := Recorded(b, s, cap);
    CountedStaysSmall(b.boards, s, cap, n);
    forall window ensures Small(TableAt(b'.boards.scores, window), n + s.score + 1) {
      assert Small(TableAt(b'.boards.scores, window), n + s.score);
    }
  }

  lemma Submits(w: World, p: Address, score: nat, n: nat) returns (w': World)
    requires Reachable(w) && Open(w, n) && n + score < 1000
    ensures Reachable(w') && Open(w', n + score + 1) && w'.config == w.config
    ensures Effect(w.books, w'.books, p, score, w.config.cap)
  {
    var s := Submission(p, score, 0, 0 / w.config.day, 0 / w.config.week);
    forall period ensures Scored(w.books.boards, s, period) <= n + score {
      assert Small(TableAt(w.books.boards.scores, WindowIn(s, period)), n);
    }
    SubmitIsReachable(w, w.config.admin, p, score, 0);
    RecordedEffect(w.books, s, w.config.cap);
    StaysSmall(w.books, s, w.config.cap, n);
    w' := Submitted(w, s);
  }

  /** A new player with no more than anybody listed goes to the end, if there is
      room. */
  lemma SubmitsBehind(w: World, p: Address, score: nat, n: nat, cap: nat, list: seq<Entry>, table: Table)
      returns (w': World)
    requires Shows(w, cap, list, table) && Open(w, n) && n + score < 1000
    requires p !in table && !Lists(list, p) && |list| <= cap && forall i :: 0 <= i < |list| ==> list[i].score >= score
    ensures Shows(w', cap, if |list| < cap then list + [Entry(p, score, 0)] else list, table[p := score])
    ensures Open(w', n + score + 1) && w'.config.admin == w.config.admin
  {
    w' := Submits(w, p, score, n);
    PlaceBehind(list, Entry(p, score, 0), cap);
  }

  lemma Starts(admin: Address, cap: nat) returns (w: World)
    requires cap >= 1
    ensures Shows(w, cap, [], map[]) && Open(w, 0) && w.config.admin == admin
    ensures w.books.allTime == map[] && w.books.totalPlayers == 0
  {
    w := Start(admin, cap);
    StartIsReachable(admin, cap);
  }

  lemma Resizes(w: World, cap: nat, n: nat) returns (w': World)
    requires Reachable(w) && Open(w, n) && cap >= 1
    ensures Shows(w', cap, AllTimeList(w), AllTimeTable(w)) && Open(w', n)
  {
    w' := Step(w, UpdateMax(w.config.admin, cap));
    ReachableStep(w, UpdateMax(w.config.admin, cap));
  }

  lemma PlaceBehind(s: seq<Entry>, e: Entry, cap: nat)
    requires !Lists(s, e.player) && forall i :: 0 <= i < |s| ==> s[i].score >= e.score
    ensures Refreshed(s, e, cap) == if |s| < cap then s + [e] else Take(s, cap)
  {
    WithoutIsAll(s, e.player);
    assert s[..|s|] == s;
  }

  /** Raising the cap does not bring back who was left out: with room for two, the
      list still shows one player although another one has scored. */
  lemma RaisedCapMissesPlayers(admin: Address, a: Address, b: Address)
    requires a != b
    ensures exists w :: Shows(w, 2, [Entry(a, 9, 0)], map[a := 9, b := 7])
    ensures !IsTopN([Entry(a, 9, 0)], map[a := 9, b := 7], 2)
  {
    var w := TwoPlayers(admin, a, b);
    w := Resizes(w, 2, 18);
    NotTheTop(Entry(a, 9, 0), map[a := 9, b := 7], 2, b);
  }

  /** Lowering the cap makes a list overflow and skip a better player: after the
      cap went from three to one the second place goes to a new score of 6,
      although a player with 7 was there. */
  lemma LoweredCapSkipsPlayers(admin: Address, a: Address, b: Address, c: Address, p: Address)
    requires a != b && a != c && b != c && p != a && p != b && p != c
    ensures exists w :: Shows(w, 1, [Entry(a, 9, 0), Entry(p, 6, 0)], map[a := 9, b := 7, c := 5, p := 6])
  {
    var w := ThreePlayers(admin, a, b, c);
    w := Resizes(w, 1, 24);
    w := SubmitsPast(w, a, b, c, p);
  }

  lemma SubmitsPast(w: World, a: Address, b: Address, c: Address, p: Address) returns (w': World)
    requires p != a && p != b && p != c && Open(w, 24)
    requires Shows(w, 1, [Entry(a, 9, 0), Entry(b, 7, 0), Entry(c, 5, 0)], map[a := 9, b := 7, c := 5])
    ensures Shows(w', 1, [Entry(a, 9, 0), Entry(p, 6, 0)], map[a := 9, b := 7, c := 5, p := 6])
  {
    w' := Submits(w, p, 6, 24);
    SkipsBetter(a, b, c, p);
    assert AllTimeTable(w') == map[a := 9, b := 7, c := 5][p := 6];
  }

  lemma ThreePlayers(admin: Address, a: Address, b: Address, c: Address) returns (w: World)
    requires a != b && a != c && b != c
    ensures Shows(w, 3, [Entry(a, 9, 0), Entry(b, 7, 0), Entry(c, 5, 0)], map[a := 9, b := 7, c := 5]) && Open(w, 24)
  {
    w := Starts(admin, 3);
    w := SubmitsBehind(w, a, 9, 0, 3, [], map[]);
    w := SubmitsBehind(w, b, 7, 10, 3, [Entry(a, 9, 0)], map[a := 9]);
    w := SubmitsBehind(w, c, 5, 18, 3, [Entry(a, 9, 0), Entry(b, 7, 0)], map[a := 9, b := 7]);
  }

  lemma SkipsBetter(a: Address, b: Address, c: Address, p: Address)
    requires p != a && p != b && p != c
    ensures Refreshed([Entry(a, 9, 0), Entry(b, 7, 0), Entry(c, 5, 0)], Entry(p, 6, 0), 1)
         == [Entry(a, 9, 0), Entry(p, 6, 0)]
  {
    var list := [Entry(a, 9, 0), Entry(b, 7, 0), Entry(c, 5, 0)];
    WithoutIsAll(list, p);
    assert TopN.Slot(list, 6) == 2;
  }

  /** A replacement that takes a listed player below an unlisted one loses the
      unlisted one: the list of one shows 1 although another player has 7. */
  lemma LoweredScoreHidesPlayers(admin: Address, a: Address, b: Address)
    requires a != b
    ensures exists w :: Shows(w, 1, [Entry(a, 1, 0)], map[a := 1, b := 7])
    ensures !IsTopN([Entry(a, 1, 0)], map[a := 1, b := 7], 1)
  {
    var w := TwoPlayers(admin, a, b);
    w := ReplacesNine(w, a, b);
    NotTheTop(Entry(a, 1, 0), map[a := 1, b := 7], 1, b);
  }

  lemma NotTheTop(e: Entry, t: Table, cap: nat, b: Address)
    requires b in t && b != e.player && (cap > 1 || e.score < t[b])
    ensures !IsTopN([e], t, cap)
  {
    var s := [e];
    assert s[0] == e && !Fair(s, t, cap, b);
  }

  lemma ReplacesNine(w: World, a: Address, b: Address) returns (w': World)
    requires Shows(w, 1, [Entry(a, 9, 0)], map[a := 9, b := 7]) && a != b && !w.config.paused
    ensures Shows(w', 1, [Entry(a, 1, 0)], map[a := 1, b := 7])
  {
    OnlyEntryReplaced(a);
    w' := Replaces(w, Entry(a, 1, 0));
    assert AllTimeTable(w') == map[a := 9, b := 7][a := 1];
  }

  lemma TwoPlayers(admin: Address, a: Address, b: Address) returns (w: World)
    requires a != b
    ensures Shows(w, 1, [Entry(a, 9, 0)], map[a := 9, b := 7]) && Open(w, 18)
  {
    w := Starts(admin, 1);
    w := SubmitsBehind(w, a, 9, 0, 1, [], map[]);
    w := SubmitsBehind(w, b, 7, 10, 1, [Entry(a, 9, 0)], map[a := 9]);
  }

  lemma OnlyEntryReplaced(a: Address)
    ensures Refreshed([Entry(a, 9, 0)], Entry(a, 1, 0), 1) == [Entry(a, 1, 0)]
  {
    assert Without([Entry(a, 9, 0)], a) == [];
  }

  lemma Replaces(w: World, e: Entry) returns (w': World)
    requires Reachable(w) && !w.config.paused && e.score >= 0 && e.timestamp == 0
    ensures Reachable(w') && w'.config == w.config
    ensures AllTimeList(w') == Refreshed(AllTimeList(w), e, w.config.cap)
    ensures AllTimeTable(w') == AllTimeTable(w)[e.player := e.score]
  {
    var c := UpdateScore(w.config.admin, e.player, e.score, AllTime, 0);
    ReachableStep(w, c);
    assert Next(w, c) == Some(WithCorrection(w, ALL_TIME, e));
    w' := WithCorrection(w, ALL_TIME, e);
  }

  const TWO_DAYS := 2 * DAY

  const THIRD_DAY := Window(Daily, 2)

  /** A submission on the third day of the ledger. */
  lemma SubmitsOnThirdDay(admin: Address, p: Address) returns (w: World)
    ensures Reachable(w) && !w.strayed && w.config == Start(admin, 1).config
    ensures w.log == [Added(Submission(p, 5, TWO_DAYS, 2, 0))]
    ensures ListAt(w.books.boards.lists, THIRD_DAY) == [Entry(p, 5, TWO_DAYS)]
  {
    var w0, s := Start(admin, 1), Submission(p, 5, TWO_DAYS, 2, 0);
    StartIsReachable(admin, 1);
    assert TWO_DAYS / DAY == 2 && TWO_DAYS / WEEK == 0;
    assert !Overflows(w0.books, s);
    SubmitIsReachable(w0, admin, p, 5, TWO_DAYS);
    w := Submitted(w0, s);
    CountedAllList(w0.books.boards, s, 1, THIRD_DAY);
    assert w.books.boards == CountedAll(w0.books.boards, s, 1);
    assert Scored(w0.books.boards, s, Daily) == 5;
    PlaceBehind([], Entry(p, 5, TWO_DAYS), 1);
  }

  /** When the length of a day changes from 86,400 to 100,000 seconds, the score of
      second 172,800 turns up on the board of the day from second 200,000 on, in
      which nothing was submitted. No replacement and no cap is involved. */
  lemma NewLengthMixesDays(admin: Address, p: Address)
    ensures exists w :: Reachable(w) && !w.strayed && w.config.day == 100_000
                     && WindowNow(w.config.day, w.config.week, Daily, 200_000) == Some(THIRD_DAY)
                     && ListAt(w.books.boards.lists, THIRD_DAY) == [Entry(p, 5, TWO_DAYS)]
                     && TableOver(w.log, w.config.day, w.config.week, THIRD_DAY) == map[]
  {
    var w := SubmitsOnThirdDay(admin, p);
    w := Relengthens(w, 100_000);
    NothingInThirdDay(w.log, p);
    assert 200_000 / 100_000 == 2;
  }

  lemma Relengthens(w: World, day: nat) returns (w': World)
    requires Reachable(w)
    ensures Reachable(w') && w' == w.(config := w.config.(day := day))
  {
    ReachableStep(w, UpdatePeriods(w.config.admin, day, w.config.week));
    w' := w.(config := w.config.(day := day));
  }

  lemma NothingInThirdDay(log: seq<Change>, p: Address)
    requires log == [Added(Submission(p, 5, TWO_DAYS, 2, 0))]
    ensures TableOver(log, 100_000, WEEK, THIRD_DAY) == map[]
  {
    assert log[..0] == [];
    assert !Spans(100_000, WEEK, THIRD_DAY, TimeOf(log[0]));
  }

  /** A player who submits zero twice is counted as two players. */
  lemma ZeroScoreCountsTwice(admin: Address, p: Address)
    ensures exists w :: Reachable(w) && w.books.totalPlayers == 2 && w.books.allTime == map[p := 0]
  {
    var w := Starts(admin, 1);
    w := Submits(w, p, 0, 0);
    w := Submits(w, p, 0, 1);
    assert w.books.allTime == map[p := 0];
  }
}
