/** The leaderboard contract: storage updated in place, proved against the state
    machine of LeaderboardRuns. */
module Leaderboard {
  import opened Host
  import opened Sums
  import opened TopN
  import opened LeaderboardBooks
  import opened LeaderboardRuns
  import opened LeaderboardPeriods

  /** What a prefix of a list shows. */
  lemma TopOfWindow(w: World, window: Window, n: nat)
    requires Reachable(w) && !w.strayed && n <= w.config.cap
    ensures IsTopN(Take(ListAt(w.books.boards.lists, window), n), LogTable(w.log, window), n)
    ensures Filed(w.log, w.config.day, w.config.week, window.period) ==>
      LogTable(w.log, window) == TableOver(w.log, w.config.day, w.config.week, window)
  {
    ListsAreTopNOfSubmissions(w, window);
    PrefixIsTopN(ListAt(w.books.boards.lists, window), LogTable(w.log, window), w.config.cap, n);
    if Filed(w.log, w.config.day, w.config.week, window.period) {
      FiledTable(w.log, w.config.day, w.config.week, window);
    }
  }

  class Leaderboard {
    var config: Config
    var verifiers: set<Address>
    var boards: Boards
    var allTime: Table
    var totalPlayers: nat
    ghost var world: World

    ghost predicate Valid()
      reads this
    {
      && Reachable(world)
      && config == world.config && verifiers == world.verifiers
      && world.books == Books(boards, allTime, totalPlayers)
    }

    constructor (admin: Address, maxTopEntries: u32)
      ensures Valid() && world == Start(admin, maxTopEntries)
    {
      config := Config(admin, if maxTopEntries == 0 then 100 else maxTopEntries, DAY, WEEK, false);
      verifiers := {};
      boards, allTime, totalPlayers := Boards(map[], map[], map[]), map[], 0;
      world := Start(admin, maxTopEntries);
      new;
      StartIsReachable(admin, maxTopEntries);
    }

    // ---- Administration ----

    method SetVerifier(caller: Address, verifier: Address, on: bool) returns (ok: bool)
      requires Valid()
      modifies this
      ensures Valid() && Commits(old(world), AfterSetVerifier(old(world), caller, verifier, on), world, ok)
    {
      ok := caller == config.admin;
      if ok {
        ReachableStep(world, Call.SetVerifier(caller, verifier, on));
        verifiers := if on then verifiers + {verifier} else verifiers - {verifier};
        world := AfterSetVerifier(world, caller, verifier, on).value;
      }
    }

    method SetPaused(caller: Address, paused: bool) returns (ok: bool)
      requires Valid()
      modifies this
      ensures Valid() && Commits(old(world), AfterSetPaused(old(world), caller, paused), world, ok)
    {
      ok := caller == config.admin;
      if ok {
        ReachableStep(world, Call.SetPaused(caller, paused));
        config := config.(paused := paused);
        world := AfterSetPaused(world, caller, paused).value;
      }
    }

    method UpdatePeriodLengths(caller: Address, day: u64, week: u64) returns (ok: bool)
      requires Valid()
      modifies this
      ensures Valid() && Commits(old(world), AfterUpdatePeriods(old(world), caller, day, week), world, ok)
    {
      ok := caller == config.admin;
      if ok {
        ReachableStep(world, Call.UpdatePeriods(caller, day, week));
        config := config.(day := day, week := week);
        world := AfterUpdatePeriods(world, caller, day, week).value;
      }
    }

    method UpdateMaxEntries(caller: Address, maxTopEntries: u32) returns (ok: bool)
      requires Valid()
      modifies this
      ensures Valid() && Commits(old(world), AfterUpdateMax(old(world), caller, maxTopEntries), world, ok)
    {
      ok := caller == config.admin && maxTopEntries != 0;
      if ok {
        ReachableStep(world, Call.UpdateMax(caller, maxTopEntries));
        config := config.(cap := maxTopEntries);
        world := AfterUpdateMax(world, caller, maxTopEntries).value;
      }
    }

    // ---- Scores ----

    method UpdateTopScoresList(window: Window, e: Entry)
      modifies this`boards
      ensures boards == old(boards).(
        lists := old(boards).lists[window := Refreshed(ListAt(old(boards).lists, window), e, config.cap)])
    {
      var list := Refresh(ListAt(boards.lists, window), e, config.cap);
      boards := boards.(lists := boards.lists[window := list]);
    }

    method UpdatePeriodScore(s: Submission, period: Period)
      modifies this`boards
      ensures boards == Counted(old(boards), s, period, config.cap)
    {
      var window := WindowIn(s, period);
      var total := Get(TableAt(boards.scores, window), s.player) + s.score;
      boards := boards.(scores := boards.scores[window := TableAt(boards.scores, window)[s.player := total]]);
      UpdateTopScoresList(window, Entry(s.player, total, s.at));
      if total > Get(boards.highs, period) {
        boards := boards.(highs := boards.highs[period := total]);
      }
    }

    method SubmitScore(submitter: Address, player: Address, score: i128, now: u64) returns (ok: bool)
      requires Valid()
      modifies this
      ensures Valid() && Commits(old(world), AfterSubmit(old(world), submitter, player, score, now), world, ok)
    {
      var s := CheckSubmission(submitter, player, score, now);
      if s.None? {
        return false;
      }
      assert Reachable(Submitted(world, s.value)) by { SubmitIsReachable(world, submitter, player, score, now); }
      CommitSubmission(s.value);
      ok := true;
    }

    /** The submission, if it passes the checks and nothing overflows. */
    method CheckSubmission(submitter: Address, player: Address, score: i128, now: u64) returns (s: Option<Submission>)
      requires Valid()
      ensures s.Some? <==> AfterSubmit(world, submitter, player, score, now).Some?
      ensures s.Some? ==>
        && MaySubmit(world.config, world.verifiers, submitter, score) && !Overflows(world.books, s.value)
        && s.value == Submission(player, score, now, now / config.day, now / config.week)
    {
      if config.paused || (submitter != config.admin && submitter !in verifiers) || score < 0
         || config.day == 0 || config.week == 0 {
        return None;
      }
      var made := Submission(player, score, now, now / config.day, now / config.week);
      s := if Overflows(Books(boards, allTime, totalPlayers), made) then None else Some(made);
    }

    method CommitSubmission(s: Submission)
      requires Valid() && Reachable(Submitted(world, s))
      modifies this
      ensures Valid() && world == Submitted(old(world), s)
    {
      RecordSubmission(s);
      world := Submitted(world, s);
    }

    /** Counts a submission for its day, its week and all time. */
    method RecordSubmission(s: Submission)
      modifies this`boards, this`allTime, this`totalPlayers
      ensures Books(boards, allTime, totalPlayers)
           == Recorded(old(Books(boards, allTime, totalPlayers)), s, config.cap)
    {
      UpdatePeriodScores(s);
      var soFar := Get(allTime, s.player);
      allTime := allTime[s.player := soFar + s.score];
      if soFar == 0 {
        totalPlayers := totalPlayers + 1;
      }
    }

    method UpdatePeriodScores(s: Submission)
      modifies this`boards
      ensures boards == CountedAll(old(boards), s, config.cap)
    {
      UpdatePeriodScore(s, Daily);
      UpdatePeriodScore(s, Weekly);
      UpdatePeriodScore(s, AllTime);
    }

    method UpdateScore(caller: Address, player: Address, score: i128, period: Period, now: u64) returns (ok: bool)
      requires Valid()
      modifies this
      ensures Valid()
      ensures Commits(old(world), AfterUpdateScore(old(world), caller, player, score, period, now), world, ok)
    {
      var window := WindowNow(config.day, config.week, period, now);
      if caller != config.admin || config.paused || score < 0 || window.None? {
        return false;
      }
      var e, at := Entry(player, score, now), window.value;
      ghost var target := WithCorrection(world, at, e);
      assert Reachable(target) by { ReachableStep(world, Call.UpdateScore(caller, player, score, period, now)); }
      boards := boards.(scores := boards.scores[at := TableAt(boards.scores, at)[player := score]]);
      UpdateTopScoresList(at, e);
      assert boards == target.books.boards;
      world := target;
      ok := true;
    }

    // ---- Views ----

    /** The current leaders: as long as every replaced score and every new cap
        fitted the lists, the true top of what was filed under the current period's
        number, and as long as all changes are filed under the current lengths, the
        true top of what was submitted and replaced in the current period. None
        stands for a division by zero. */
    method GetTopPlayers(period: Period, limit: u32, now: u64) returns (top: Option<seq<Entry>>)
      requires Valid()
      ensures top.None? <==> WindowNow(config.day, config.week, period, now).None?
      ensures top.Some? && !world.strayed ==>
        var window := WindowNow(config.day, config.week, period, now).value;
        var table, cap := LogTable(world.log, window), if limit > config.cap then config.cap else limit;
        && IsTopN(top.value, table, cap)
        && Spans(config.day, config.week, window, now)
        && (Filed(world.log, config.day, config.week, period) ==>
              table == TableOver(world.log, config.day, config.week, window))
    {
      var window := WindowNow(config.day, config.week, period, now);
      if window.None? {
        return None;
      }
      var list := ListAt(boards.lists, window.value);
      var actual := if limit > config.cap then config.cap else limit;
      var result := [];
      for i := 0 to if |list| < actual then |list| else actual
        invariant result == list[..i]
      {
        result := result + [list[i]];
      }
      if !world.strayed {
        TopOfWindow(world, window.value, actual);
        assert result == Take(list, actual);
        CurrentSpans(config.day, config.week, period, now);
      }
      top := Some(result);
    }

    /** The rank of a player, 0 if unlisted. Exactly the players on the places
        before have at least its score, the list being free of repetitions. */
    method GetPlayerRank(player: Address, period: Period, now: u64) returns (rank: Option<nat>)
      requires Valid()
      ensures rank.None? <==> WindowNow(config.day, config.week, period, now).None?
      ensures rank.Some? ==>
        var list := ListAt(boards.lists, WindowNow(config.day, config.week, period, now).value);
        && rank.value <= |list|
        && (rank.value == 0 <==> !Lists(list, player))
        && (forall i :: 0 <= i < |list| ==> (list[i].player == player <==> i == rank.value - 1))
        && (rank.value > 0 ==> forall i :: 0 <= i < |list| && list[i].score > list[rank.value - 1].score ==>
              i < rank.value - 1)
    {
      var window := WindowNow(config.day, config.week, period, now);
      if window.None? {
        return None;
      }
      var list := ListAt(boards.lists, window.value);
      ListsAreAlwaysRanked(world, window.value);
      for i := 0 to |list|
        invariant forall j :: 0 <= j < i ==> list[j].player != player
      {
        if list[i].player == player {
          return Some(i + 1);
        }
      }
      rank := Some(0);
    }
  }
}
