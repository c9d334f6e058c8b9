/** Runs of the leaderboard contract. */
module LeaderboardRuns {
  import opened Host
  import opened Sums
  import opened TopN
  import opened LeaderboardBooks
  import Runs

  const DAY: u64 := 86_400
  const WEEK: u64 := 604_800

  datatype Config = Config(admin: Address, cap: nat, day: nat, week: nat, paused: bool)

  datatype World = World(
    config: Config, verifiers: set<Address>, books: Books,
    log: seq<Change>,   // what happened to the scores so far
    strayed: bool)      // did a replaced score or a new cap ever not fit the lists

  function Start(admin: Address, maxTopEntries: nat): World {
    World(Config(admin, if maxTopEntries == 0 then 100 else maxTopEntries, DAY, WEEK, false), {},
          Books(Boards(map[], map[], map[]), map[], 0), [], false)
  }

  /** The current window of a period; None stands for a division by zero. */
  function WindowNow(day: nat, week: nat, period: Period, now: nat): Option<Window> {
    match period
    case Daily => if day == 0 then None else Some(Window(Daily, now / day))
    case Weekly => if week == 0 then None else Some(Window(Weekly, now / week))
    case AllTime => Some(ALL_TIME)
  }

  predicate MaySubmit(config: Config, verifiers: set<Address>, submitter: Address, score: int) {
    && !config.paused && (submitter == config.admin || submitter in verifiers) && score >= 0
    && config.day > 0 && config.week > 0
  }

  /** What a submission changes: the boards, the cumulative totals and the count
      of players. */
  datatype Books = Books(boards: Boards, allTime: Table, totalPlayers: nat)

  predicate Overflows(b: Books, s: Submission) {
    || Scored(b.boards, s, Daily) > I128_MAX || Scored(b.boards, s, Weekly) > I128_MAX
    || Scored(b.boards, s, AllTime) > I128_MAX || Get(b.allTime, s.player) + s.score > I128_MAX
    || (Get(b.allTime, s.player) == 0 && b.totalPlayers >= U32_MAX)
  }

  function Recorded(b: Books, s: Submission, cap: nat): Books {
    Totalled(b, s, CountedAll(b.boards, s, cap))
  }

  /** A total of zero passes for a new player. */
  function Totalled(b: Books, s: Submission, boards: Boards): Books {
    var soFar := Get(b.allTime, s.player);
    Books(boards, b.allTime[s.player := soFar + s.score], b.totalPlayers + if soFar == 0 then 1 else 0)
  }

  function Submitted(w: World, s: Submission): World {
    w.(books := Recorded(w.books, s, w.config.cap), log := w.log + [Added(s)])
  }

  function AfterSubmit(w: World, submitter: Address, player: Address, score: int, now: nat): Option<World> {
    if !MaySubmit(w.config, w.verifiers, submitter, score) then None else
      var s := Submission(player, score, now, now / w.config.day, now / w.config.week);
      if Overflows(w.books, s) then None else Some(Submitted(w, s))
  }

  /** A replaced score that does not fit leaves a list that is no longer the top. */
  ghost function WithCorrection(w: World, window: Window, e: Entry): World {
    w.(books := w.books.(boards := Corrected(w.books.boards, window, e, w.config.cap)),
       log := w.log + [Replaced(window, e)],
       strayed := w.strayed || !CorrectionFits(w.books.boards, window, e))
  }

  ghost function AfterUpdateScore(w: World, caller: Address, player: Address, score: int, period: Period, now: nat)
      : Option<World> {
    var window := WindowNow(w.config.day, w.config.week, period, now);
    if caller != w.config.admin || w.config.paused || score < 0 || window.None? then None
    else Some(WithCorrection(w, window.value, Entry(player, score, now)))
  }

  function AfterSetVerifier(w: World, caller: Address, verifier: Address, on: bool): Option<World> {
    if caller != w.config.admin then None
    else Some(w.(verifiers := if on then w.verifiers + {verifier} else w.verifiers - {verifier}))
  }

  function AfterSetPaused(w: World, caller: Address, paused: bool): Option<World> {
    if caller != w.config.admin then None else Some(w.(config := w.config.(paused := paused)))
  }

  function AfterUpdatePeriods(w: World, caller: Address, day: nat, week: nat): Option<World> {
    if caller != w.config.admin then None else Some(w.(config := w.config.(day := day, week := week)))
  }

  /** The lists stay as they are, whether or not they fit the new cap. */
  ghost function AfterUpdateMax(w: World, caller: Address, maxTopEntries: nat): Option<World> {
    if caller != w.config.admin || maxTopEntries == 0 then None
    else Some(w.(config := w.config.(cap := maxTopEntries),
                 strayed := w.strayed || !ResizeFits(w.books.boards, maxTopEntries)))
  }

  datatype Call =
    | Submit(submitter: Address, player: Address, score: int, now: nat)
    | UpdateScore(caller: Address, player: Address, score: int, period: Period, now: nat)
    | SetVerifier(caller: Address, verifier: Address, on: bool)
    | SetPaused(caller: Address, paused: bool)
    | UpdatePeriods(caller: Address, day: nat, week: nat)
    | UpdateMax(caller: Address, maxTopEntries: nat)

  ghost function Next(w: World, c: Call): Option<World> {
    match c
    case Submit(submitter, player, score, now) => AfterSubmit(w, submitter, player, score, now)
    case UpdateScore(caller, player, score, period, now) => AfterUpdateScore(w, caller, player, score, period, now)
    case SetVerifier(caller, verifier, on) => AfterSetVerifier(w, caller, verifier, on)
    case SetPaused(caller, paused) => AfterSetPaused(w, caller, paused)
    case UpdatePeriods(caller, day, week) => AfterUpdatePeriods(w, caller, day, week)
    case UpdateMax(caller, maxTopEntries) => AfterUpdateMax(w, caller, maxTopEntries)
  }

  ghost function Step(w: World, c: Call): World {
    match Next(w, c) case Some(w') => w' case None => w
  }

  ghost predicate Reachable(w: World) {
    exists admin, maxTop: nat :: Runs.ReachableFrom(Step, Start(admin, maxTop), w)
  }

  lemma ReachableStep(w: World, c: Call)
    requires Reachable(w)
    ensures Reachable(Step(w, c))
  {
    var admin, maxTop: nat :| Runs.ReachableFrom(Step, Start(admin, maxTop), w);
    Runs.ReachableNext(Step, Start(admin, maxTop), w, c);
  }

  lemma SubmitIsReachable(w: World, submitter: Address, player: Address, score: int, now: nat)
    requires Reachable(w) && MaySubmit(w.config, w.verifiers, submitter, score)
    requires !Overflows(w.books, Submission(player, score, now, now / w.config.day, now / w.config.week))
    ensures Reachable(Submitted(w, Submission(player, score, now, now / w.config.day, now / w.config.week)))
  {
    ReachableStep(w, Call.Submit(submitter, player, score, now));
  }

  lemma StartIsReachable(admin: Address, maxTop: nat)
    ensures Reachable(Start(admin, maxTop))
  {
    Runs.ReachableNow(Step, Start(admin, maxTop));
  }

  // ---- The invariant ----

  ghost predicate BoardsSound(b: Boards, w: World) {
    && w.config.cap >= 1 && AllRanked(b) && TablesMatchLog(b, w.log) && HighsAreBest(b, w.log)
    && HighsMatchLog(b, w.log)
    && (!w.strayed ==> AllTopN(b, w.config.cap))
  }

  ghost predicate TotalsSound(b: Books, log: seq<Change>) {
    b.allTime == SubmittedTotals(log) && b.totalPlayers == |b.allTime| + Recounts(log)
  }

  ghost predicate Sound(w: World) {
    BoardsSound(w.books.boards, w) && TotalsSound(w.books, w.log)
  }

  lemma SubmitKeepsBoards(b: Boards, w: World, s: Submission)
    requires BoardsSound(b, w) && s.score >= 0
    ensures BoardsSound(CountedAll(b, s, w.config.cap), w.(log := w.log + [Added(s)]))
  {
    CountedAllKeepsRanks(b, s, w.config.cap);
    CountedAllMatchesLog(b, s, w.config.cap, w.log);
    CountedAllKeepsHighs(b, s, w.config.cap, w.log);
    CountedAllMatchesHighs(b, s, w.config.cap, w.log);
    if !w.strayed {
      CountedAllKeepsTopN(b, s, w.config.cap);
    }
  }

  lemma LogExtended(log: seq<Change>, c: Change)
    ensures var t := SubmittedTotals(log);
      Recounts(log + [c]) == Recounts(log) + if c.Added? && c.s.player in t && t[c.s.player] == 0 then 1 else 0
    ensures SubmittedTotals(log + [c])
         == var t := SubmittedTotals(log); if c.Added? then t[c.s.player := Get(t, c.s.player) + c.s.score] else t
  {
    assert (log + [c])[..|log|] == log;
  }

  lemma Enlarged(t: Table, p: Address, v: int)
    ensures |t[p := v]| == |t| + if p in t then 0 else 1
  {
    assert t[p := v].Keys == t.Keys + {p};
    assert |t[p := v]| == |t[p := v].Keys| && |t| == |t.Keys|;
  }

  lemma SubmitKeepsTotals(b: Books, log: seq<Change>, s: Submission, boards: Boards)
    requires TotalsSound(b, log)
    ensures TotalsSound(Totalled(b, s, boards), log + [Added(s)])
  {
    LogExtended(log, Added(s));
    Enlarged(b.allTime, s.player, Get(b.allTime, s.player) + s.score);
  }

  lemma SubmitKeepsSound(w: World, s: Submission)
    requires Sound(w) && s.score >= 0
    ensures Sound(Submitted(w, s))
  {
    var boards := CountedAll(w.books.boards, s, w.config.cap);
    SubmitKeepsBoards(w.books.boards, w, s);
    SubmitKeepsTotals(w.books, w.log, s, boards);
    BooksKeepSound(w, s, boards);
  }

  lemma BooksKeepSound(w: World, s: Submission, boards: Boards)
    requires var w' := w.(log := w.log + [Added(s)]);
      BoardsSound(boards, w') && TotalsSound(Totalled(w.books, s, boards), w'.log)
    ensures Sound(w.(books := Totalled(w.books, s, boards), log := w.log + [Added(s)]))
  {
  }

  lemma CorrectionKeepsSound(w: World, window: Window, e: Entry)
    requires Sound(w)
    ensures Sound(WithCorrection(w, window, e))
  {
    CorrectedKeepsRanks(w.books.boards, window, e, w.config.cap);
    CorrectedMatchesLog(w.books.boards, window, e, w.config.cap, w.log);
    CorrectedKeepsHighs(w.books.boards, window, e, w.config.cap, w.log);
    CorrectedMatchesHighs(w.books.boards, window, e, w.config.cap, w.log);
    LogExtended(w.log, Replaced(window, e));
    if !w.strayed {
      CorrectionKeepsTopNIff(w.books.boards, window, e, w.config.cap);
    }
  }

  lemma StepKeepsSound(w: World, c: Call)
    requires Sound(w)
    ensures Sound(Step(w, c))
  {
    match c
    case Submit(submitter, player, score, now) =>
      if AfterSubmit(w, submitter, player, score, now).Some? {
        var s := Submission(player, score, now, now / w.config.day, now / w.config.week);
        SubmitKeepsSound(w, s);
      }
    case UpdateScore(caller, player, score, period, now) =>
      if window :| WindowNow(w.config.day, w.config.week, period, now) == Some(window) {
        CorrectionKeepsSound(w, window, Entry(player, score, now));
      }
    case UpdateMax(caller, maxTopEntries) =>
      if !w.strayed {
        ResizeKeepsTopNIff(w.books.boards, w.config.cap, maxTopEntries);
      }
    case _ =>
  }

  lemma StartIsSound(admin: Address, maxTop: nat)
    ensures Sound(Start(admin, maxTop))
  {
  }

  lemma ReachableIsSound(w: World)
    requires Reachable(w)
    ensures Sound(w)
  {
    var admin, maxTop: nat :| Runs.ReachableFrom(Step, Start(admin, maxTop), w);
    StartIsSound(admin, maxTop);
    forall v, c | Sound(v) ensures Sound(Step(v, c)) {
      StepKeepsSound(v, c);
    }
    Runs.ReachableKeeps(Step, Sound, Start(admin, maxTop), w);
  }

  // ---- For every run ----

  /** As long as every replaced score and every new cap fitted the lists, every
      list is the true top N of what the calls add up to under its number. What
      stretch of time the number stands for is the matter of LeaderboardPeriods. */
  lemma ListsAreTopNOfSubmissions(w: World, window: Window)
    requires Reachable(w) && !w.strayed
    ensures IsTopN(ListAt(w.books.boards.lists, window), LogTable(w.log, window), w.config.cap)
  {
    ReachableIsSound(w);
    assert ListAt(w.books.boards.lists, window) == ListAt(w.books.boards.lists, window);
  }

  /** While all lists are the top of their tables, the next call changes that
      exactly if it is an accepted replacement or an accepted cap that does not
      fit; everything else keeps it. */
  lemma ListsStrayIff(w: World, c: Call)
    requires Reachable(w) && AllTopN(w.books.boards, w.config.cap)
    ensures AllTopN(Step(w, c).books.boards, Step(w, c).config.cap) <==>
      match c
      case UpdateScore(_, player, score, period, now) =>
        Next(w, c).None?
        || CorrectionFits(w.books.boards, WindowNow(w.config.day, w.config.week, period, now).value,
                          Entry(player, score, now))
      case UpdateMax(_, maxTopEntries) => Next(w, c).None? || ResizeFits(w.books.boards, maxTopEntries)
      case _ => true
  {
    ReachableIsSound(w);
    match c
    case Submit(submitter, player, score, now) =>
      if Next(w, c).Some? {
        var s := Submission(player, score, now, now / w.config.day, now / w.config.week);
        CountedAllKeepsTopN(w.books.boards, s, w.config.cap);
      }
    case UpdateScore(caller, player, score, period, now) =>
      if Next(w, c).Some? {
        var window := WindowNow(w.config.day, w.config.week, period, now).value;
        CorrectionKeepsTopNIff(w.books.boards, window, Entry(player, score, now), w.config.cap);
      }
    case UpdateMax(caller, maxTopEntries) => ResizeKeepsTopNIff(w.books.boards, w.config.cap, maxTopEntries);
    case _ =>
  }

  /** After any calls at all the lists are sorted, name nobody twice and show
      the scores that are stored. */
  lemma ListsAreAlwaysRanked(w: World, window: Window)
    requires Reachable(w)
    ensures var list := ListAt(w.books.boards.lists, window);
      Descending(list) && OneEach(list) && FromTable(list, TableAt(w.books.boards.scores, window))
  {
    ReachableIsSound(w);
    assert ListAt(w.books.boards.lists, window) == ListAt(w.books.boards.lists, window);
  }

  /** The cumulative totals are the submissions' sums. The all-time table, which
      keeps the same thing once more, differs from them for each player by what the
      last replacement of the player's all-time score moved it, and so agrees
      exactly for the players without a replacement or with one that changed
      nothing. */
  lemma AllTimeTotalsAgreeIff(w: World, p: Address)
    requires Reachable(w)
    ensures w.books.allTime == SubmittedTotals(w.log)
    ensures var scored := Get(TableAt(w.books.boards.scores, ALL_TIME), p);
      && scored == Get(w.books.allTime, p) + Drift(w.log, p)
      && (scored == Get(w.books.allTime, p) <==> Drift(w.log, p) == 0)
  {
    ReachableIsSound(w);
    TotalsDrift(w.log, p);
  }

  /** The record of a kind of period is the highest score that any submission ever
      led to in such a period, whatever was replaced before or after. */
  lemma HighScoreIsHighestReached(w: World, period: Period)
    requires Reachable(w)
    ensures var high := Get(w.books.boards.highs, period);
      && (forall j: nat :: j < |w.log| && w.log[j].Added? ==> Reached(w.log, j, period) <= high)
      && (high == 0 || exists j: nat :: j < |w.log| && w.log[j].Added? && Reached(w.log, j, period) == high)
  {
    ReachableIsSound(w);
    HighIsHighestReached(w.log, period);
  }

  /** Without replaced scores of its kind the record is the best score there is. */
  lemma HighScoresAreBest(w: World, period: Period)
    requires Reachable(w) && PeriodUnreplaced(w.log, period)
    ensures IsBest(w.books.boards, period, Get(w.books.boards.highs, period))
  {
    ReachableIsSound(w);
  }

  /** While the record is the best score, the next call changes that exactly if it
      is an accepted replacement that passes the record or takes away the only
      score that reached it. */
  lemma RecordStraysIff(w: World, c: Call, period: Period)
    requires Reachable(w) && IsBest(w.books.boards, period, Get(w.books.boards.highs, period))
    ensures IsBest(Step(w, c).books.boards, period, Get(Step(w, c).books.boards.highs, period)) <==>
      (c.UpdateScore? && c.period == period && Next(w, c).Some? ==>
         RecordFits(w.books.boards, WindowNow(w.config.day, w.config.week, period, c.now).value,
                    Entry(c.player, c.score, c.now)))
  {
    match c
    case Submit(submitter, player, score, now) =>
      if Next(w, c).Some? {
        var s := Submission(player, score, now, now / w.config.day, now / w.config.week);
        CountedAllKeepsBest(w.books.boards, s, w.config.cap, period);
      }
    case UpdateScore(caller, player, score, at, now) =>
      if Next(w, c).Some? {
        var window := WindowNow(w.config.day, w.config.week, at, now).value;
        if at == period {
          CorrectionKeepsBestIff(w.books.boards, window, Entry(player, score, now), w.config.cap);
        } else {
          CorrectionLeavesOthers(w.books.boards, window, Entry(player, score, now), w.config.cap, period);
        }
      }
    case _ =>
  }

  lemma {:induction false} RecountsIff(log: seq<Change>)
    ensures Recounts(log) == 0 <==> forall j: nat :: j < |log| ==> !ZeroAgain(log, j)
    decreases |log|
  {
    if log != [] {
      var init := log[..|log| - 1];
      RecountsIff(init);
      forall j: nat | j < |init| ensures ZeroAgain(init, j) <==> ZeroAgain(log, j) {
        assert init[..j] == log[..j];
      }
      assert Recounts(log) == 0 <==> Recounts(init) == 0 && !ZeroAgain(log, |log| - 1);
    }
  }

  /** The player count never misses a player; it is exact if and only if nobody
      whose score so far was zero submitted again. */
  lemma PlayerCountIff(w: World)
    requires Reachable(w)
    ensures w.books.totalPlayers >= |w.books.allTime|
    ensures w.books.totalPlayers == |w.books.allTime| <==> forall j: nat :: j < |w.log| ==> !ZeroAgain(w.log, j)
  {
    ReachableIsSound(w);
    RecountsIff(w.log);
  }
}
