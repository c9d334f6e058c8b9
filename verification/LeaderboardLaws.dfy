/** What each accepted call of the leaderboard contract does to the scores, player by
    player and window by window. */
module LeaderboardLaws {
  import opened Host
  import opened Sums
  import opened TopN
  import opened LeaderboardBooks
  import opened LeaderboardRuns

  /** A player's score in a window, 0 if there is none. */
  function ScoreIn(w: World, window: Window, p: Address): int {
    if window in w.books.boards.scores && p in w.books.boards.scores[window]
    then w.books.boards.scores[window][p] else 0
  }

  /** The day, the week and the all-time window of a moment. */
  function Current(w: World, now: nat): set<Window>
    requires w.config.day > 0 && w.config.week > 0
  {
    {Window(Daily, now / w.config.day), Window(Weekly, now / w.config.week), Window(AllTime, 0)}
  }

  /** The administrator and the verifiers submit scores that are not negative, unless
      the contract is paused or a period has no length. */
  lemma SubmittersAreAuthorized(w: World, submitter: Address, player: Address, score: int, now: nat)
    ensures Next(w, Submit(submitter, player, score, now)).Some? ==>
      && !w.config.paused && (submitter == w.config.admin || submitter in w.verifiers) && score >= 0
      && w.config.day > 0 && w.config.week > 0
  {
  }

  /** With small enough numbers nothing else is asked. */
  lemma SubmissionsSucceed(w: World, submitter: Address, player: Address, score: int, now: nat)
    requires !w.config.paused && (submitter == w.config.admin || submitter in w.verifiers) && score >= 0
    requires w.config.day > 0 && w.config.week > 0
    requires forall window :: window in Current(w, now) ==> ScoreIn(w, window, player) + score <= I128_MAX
    requires Get(w.books.allTime, player) + score <= I128_MAX && w.books.totalPlayers < U32_MAX
    ensures Next(w, Submit(submitter, player, score, now)).Some?
  {
    var s := Submission(player, score, now, now / w.config.day, now / w.config.week);
    assert Window(Daily, now / w.config.day) in Current(w, now);
    assert Window(Weekly, now / w.config.week) in Current(w, now);
    assert Window(AllTime, 0) in Current(w, now);
    assert Scored(w.books.boards, s, Daily) == ScoreIn(w, Window(Daily, now / w.config.day), player) + score;
    assert Scored(w.books.boards, s, Weekly) == ScoreIn(w, Window(Weekly, now / w.config.week), player) + score;
    assert Scored(w.books.boards, s, AllTime) == ScoreIn(w, Window(AllTime, 0), player) + score;
  }

  /** A submission adds its score to its player in the current day, week and all time,
      and to nobody else and in no other window. */
  lemma SubmissionIsAdded(w: World, submitter: Address, player: Address, score: int, now: nat, window: Window,
                          p: Address)
    requires Next(w, Submit(submitter, player, score, now)).Some?
    ensures w.config.day > 0 && w.config.week > 0
    ensures var w' := Next(w, Submit(submitter, player, score, now)).value;
      ScoreIn(w', window, p)
      == ScoreIn(w, window, p) + if p == player && window in Current(w, now) then score else 0
  {
    var s := Submission(player, score, now, now / w.config.day, now / w.config.week);
    var boards := CountedAll(w.books.boards, s, w.config.cap);
    CountedAllTable(w.books.boards, s, w.config.cap, window);
    CreditedScore(TableAt(w.books.boards.scores, window), s, window, p);
    CurrentWindows(w, s, window);
    ScoresOf(Submitted(w, s), boards, window, p);
  }

  lemma ScoresOf(w: World, boards: Boards, window: Window, p: Address)
    requires w.books.boards == boards
    ensures ScoreIn(w, window, p) == Get(TableAt(boards.scores, window), p)
  {
  }

  lemma CurrentWindows(w: World, s: Submission, window: Window)
    requires w.config.day > 0 && w.config.week > 0
    requires s.day == s.at / w.config.day && s.week == s.at / w.config.week
    ensures WindowIn(s, window.period) == window <==> window in Current(w, s.at)
  {
  }

  /** Its player's cumulative total grows by it, and whoever had none counts as new. */
  lemma SubmissionIsTotalled(w: World, submitter: Address, player: Address, score: int, now: nat, p: Address)
    requires Next(w, Submit(submitter, player, score, now)).Some?
    ensures var w' := Next(w, Submit(submitter, player, score, now)).value;
      && Get(w'.books.allTime, p) == Get(w.books.allTime, p) + (if p == player then score else 0)
      && w'.config == w.config && w'.verifiers == w.verifiers
      && w'.books.totalPlayers == w.books.totalPlayers + if Get(w.books.allTime, player) == 0 then 1 else 0
  {
    var s := Submission(player, score, now, now / w.config.day, now / w.config.week);
    assert Submitted(w, s).books == Totalled(w.books, s, CountedAll(w.books.boards, s, w.config.cap));
  }

  lemma CreditedScore(t: Table, s: Submission, window: Window, p: Address)
    ensures Get(Credited(t, s, window), p)
         == Get(t, p) + if p == s.player && WindowIn(s, window.period) == window then s.score else 0
  {
  }

  /** The administrator replaces one player's score in the current window of a kind. */
  lemma ReplacementIsStored(w: World, caller: Address, player: Address, score: int, period: Period, now: nat)
    ensures var next := Next(w, UpdateScore(caller, player, score, period, now));
      && (next.Some? <==> caller == w.config.admin && !w.config.paused && score >= 0
                          && (period == Daily ==> w.config.day > 0) && (period == Weekly ==> w.config.week > 0))
      && (next.Some? ==>
            var id := if period == Daily then now / w.config.day
                      else if period == Weekly then now / w.config.week else 0;
            && (forall window, p :: ScoreIn(next.value, window, p)
                  == if window == Window(period, id) && p == player then score else ScoreIn(w, window, p))
            && next.value.books.allTime == w.books.allTime && next.value.books.totalPlayers == w.books.totalPlayers
            && next.value.config == w.config && next.value.verifiers == w.verifiers)
  {
  }

  /** Only the administrator changes the settings and the verifiers, each on its own. */
  lemma SettingsAreSet(w: World, c: Call)
    requires c.SetVerifier? || c.SetPaused? || c.UpdatePeriods? || c.UpdateMax?
    ensures Next(w, c).Some? <==> c.caller == w.config.admin && (c.UpdateMax? ==> c.maxTopEntries > 0)
    ensures Next(w, c).Some? ==>
      var w' := Next(w, c).value;
      && w'.books == w.books && w'.log == w.log
      && w'.config == (if c.SetPaused? then w.config.(paused := c.paused)
                       else if c.UpdatePeriods? then w.config.(day := c.day, week := c.week)
                       else if c.UpdateMax? then w.config.(cap := c.maxTopEntries) else w.config)
      && forall v :: v in w'.verifiers <==> if c.SetVerifier? && v == c.verifier then c.on else v in w.verifiers
  {
  }

  /** A day is 86400 seconds and a week seven days to begin with, and a cap of 0 means
      100 entries. */
  lemma DefaultsAreSet(admin: Address, maxTopEntries: nat)
    ensures var config := Start(admin, maxTopEntries).config;
      && config.admin == admin && config.day == 86_400 && config.week == 7 * 86_400 && !config.paused
      && config.cap == (if maxTopEntries > 0 then maxTopEntries else 100)
  {
  }
}
