/** Scores per player and period, and the ranked lists over them, as a state
    machine. */
module LeaderboardBooks {
  import opened Host
  import opened Sums
  import opened TopN

  datatype Period = Daily | Weekly | AllTime

  datatype Window = Window(period: Period, id: nat)

  /** What was submitted and when, with the day and week it counted for. */
  datatype Submission = Submission(player: Address, score: int, at: nat, day: nat, week: nat)

  datatype Boards = Boards(scores: map<Window, Table>, lists: map<Window, seq<Entry>>, highs: map<Period, int>)

  function TableAt(scores: map<Window, Table>, window: Window): Table {
    if window in scores then scores[window] else map[]
  }

  function ListAt(lists: map<Window, seq<Entry>>, window: Window): seq<Entry> {
    if window in lists then lists[window] else []
  }

  function WindowIn(s: Submission, period: Period): Window {
    match period
    case Daily => Window(Daily, s.day)
    case Weekly => Window(Weekly, s.week)
    case AllTime => Window(AllTime, 0)
  }

  function Scored(b: Boards, s: Submission, period: Period): int {
    Get(TableAt(b.scores, WindowIn(s, period)), s.player) + s.score
  }

  /** The boards with `s` counted for one period. */
  function Counted(b: Boards, s: Submission, period: Period, cap: nat): Boards {
    var window, total := WindowIn(s, period), Scored(b, s, period);
    Boards(b.scores[window := TableAt(b.scores, window)[s.player := total]],
           b.lists[window := Refreshed(ListAt(b.lists, window), Entry(s.player, total, s.at), cap)],
           if total > Get(b.highs, period) then b.highs[period := total] else b.highs)
  }

  function CountedAll(b: Boards, s: Submission, cap: nat): Boards {
    Counted(Counted(Counted(b, s, Daily, cap), s, Weekly, cap), s, AllTime, cap)
  }

  // ---- What the calls add up to ----

  const ALL_TIME := Window(AllTime, 0)

  /** What happened to the scores: one was added to, or one was replaced. */
  datatype Change = Added(s: Submission) | Replaced(window: Window, e: Entry)

  /** The table of a window after a submission, which counts there or not. */
  ghost function Credited(t: Table, s: Submission, window: Window): Table {
    if WindowIn(s, window.period) == window then t[s.player := Get(t, s.player) + s.score] else t
  }

  /** The score table of one window, computed from the calls alone. */
  ghost function LogTable(log: seq<Change>, window: Window): Table {
    if log == [] then map[] else
      var t := LogTable(log[..|log| - 1], window);
      match log[|log| - 1]
      case Added(s) => Credited(t, s, window)
      case Replaced(at, e) => if at == window then t[e.player := e.score] else t
  }

  ghost predicate TablesMatchLog(b: Boards, log: seq<Change>) {
    forall window :: TableAt(b.scores, window) == LogTable(log, window)
  }

  /** Everything ever submitted per player, replacements aside. */
  ghost function SubmittedTotals(log: seq<Change>): Table {
    if log == [] then map[] else
      var t := SubmittedTotals(log[..|log| - 1]);
      match log[|log| - 1]
      case Added(s) => t[s.player := Get(t, s.player) + s.score]
      case Replaced(_, _) => t
  }

  ghost predicate PeriodUnreplaced(log: seq<Change>, period: Period) {
    forall c :: c in log ==> !(c.Replaced? && c.window.period == period)
  }

  /** By how much the last replacement of a player's all-time score moved it away
      from what the player had submitted. */
  ghost function Drift(log: seq<Change>, p: Address): int {
    if log == [] then 0 else
      var init := log[..|log| - 1];
      match log[|log| - 1]
      case Added(_) => Drift(init, p)
      case Replaced(at, e) =>
        if at == ALL_TIME && e.player == p then e.score - Get(SubmittedTotals(init), p) else Drift(init, p)
  }

  lemma {:induction false} TotalsDrift(log: seq<Change>, p: Address)
    ensures Get(LogTable(log, ALL_TIME), p) == Get(SubmittedTotals(log), p) + Drift(log, p)
    decreases |log|
  {
    if log != [] {
      TotalsDrift(log[..|log| - 1], p);
    }
  }

  /** What the submission at `j` brought its player to in its period. */
  ghost function Reached(log: seq<Change>, j: nat, period: Period): int
    requires j < |log| && log[j].Added?
  {
    var s := log[j].s;
    Get(LogTable(log[..j], WindowIn(s, period)), s.player) + s.score
  }

  /** The highest score that a submission ever led to; replaced scores neither
      raise nor lower it. */
  ghost function HighOf(log: seq<Change>, period: Period): int {
    if log == [] then 0 else
      var high := HighOf(log[..|log| - 1], period);
      if log[|log| - 1].Added? && Reached(log, |log| - 1, period) > high then Reached(log, |log| - 1, period) else high
  }

  lemma ReachedBefore(log: seq<Change>, j: nat, period: Period)
    requires j + 1 < |log| && log[j].Added?
    ensures Reached(log, j, period) == Reached(log[..|log| - 1], j, period)
  {
    assert log[..|log| - 1][..j] == log[..j];
  }

  lemma {:induction false} HighIsHighestReached(log: seq<Change>, period: Period)
    ensures forall j: nat :: j < |log| && log[j].Added? ==> Reached(log, j, period) <= HighOf(log, period)
    ensures HighOf(log, period) == 0
         || exists j: nat :: j < |log| && log[j].Added? && Reached(log, j, period) == HighOf(log, period)
    decreases |log|
  {
    if log != [] {
      var init := log[..|log| - 1];
      HighIsHighestReached(init, period);
      forall j: nat | j < |log| && log[j].Added? ensures Reached(log, j, period) <= HighOf(log, period) {
        if j < |init| { ReachedBefore(log, j, period); }
      }
      if HighOf(log, period) == HighOf(init, period) != 0 {
        var j: nat :| j < |init| && init[j].Added? && Reached(init, j, period) == HighOf(init, period);
        ReachedBefore(log, j, period);
        assert log[j].Added?;
      } else if HighOf(log, period) != 0 {
        assert log[|log| - 1].Added?;
      }
    }
  }

  ghost predicate HighsMatchLog(b: Boards, log: seq<Change>) {
    forall period :: Get(b.highs, period) == HighOf(log, period)
  }

  /** The submission at `j` came from a player whose total so far was zero. */
  ghost predicate ZeroAgain(log: seq<Change>, j: nat)
    requires j < |log|
  {
    var t := SubmittedTotals(log[..j]);
    log[j].Added? && log[j].s.player in t && t[log[j].s.player] == 0
  }

  /** How many submissions came from a player seen before who had scored only zeros. */
  ghost function Recounts(log: seq<Change>): nat {
    if log == [] then 0 else Recounts(log[..|log| - 1]) + if ZeroAgain(log, |log| - 1) then 1 else 0
  }

  // ---- What the boards promise ----

  ghost predicate AllTopN(b: Boards, cap: nat) {
    forall window {:trigger ListAt(b.lists, window)} :: IsTopN(ListAt(b.lists, window), TableAt(b.scores, window), cap)
  }

  ghost predicate Ranked(list: seq<Entry>, t: Table) {
    Descending(list) && OneEach(list) && FromTable(list, t)
  }

  ghost predicate AllRanked(b: Boards) {
    forall window {:trigger ListAt(b.lists, window)} :: Ranked(ListAt(b.lists, window), TableAt(b.scores, window))
  }

  ghost predicate IsBest(b: Boards, period: Period, high: int) {
    && (forall window: Window, p :: window.period == period && p in TableAt(b.scores, window) ==>
          TableAt(b.scores, window)[p] <= high)
    && (high == 0 || exists window: Window, p ::
          window.period == period && p in TableAt(b.scores, window) && TableAt(b.scores, window)[p] == high)
  }

  /** The high-score record of a kind of period without replacements is the best
      score of any player in any period of that kind. */
  ghost predicate HighsAreBest(b: Boards, log: seq<Change>) {
    forall period :: PeriodUnreplaced(log, period) ==> IsBest(b, period, Get(b.highs, period))
  }

  lemma CountedElsewhere(b: Boards, s: Submission, period: Period, cap: nat, window: Window)
    requires window != WindowIn(s, period)
    ensures var b' := Counted(b, s, period, cap);
      TableAt(b'.scores, window) == TableAt(b.scores, window) && ListAt(b'.lists, window) == ListAt(b.lists, window)
  {
  }

  lemma CountedKeepsTopN(b: Boards, s: Submission, period: Period, cap: nat)
    requires AllTopN(b, cap) && s.score >= 0 && cap >= 1
    ensures AllTopN(Counted(b, s, period, cap), cap)
  {
    var b', at := Counted(b, s, period, cap), WindowIn(s, period);
    forall window ensures IsTopN(ListAt(b'.lists, window), TableAt(b'.scores, window), cap) {
      if window == at {
        RisingScoreKeepsTopN(ListAt(b.lists, at), TableAt(b.scores, at), Entry(s.player, Scored(b, s, period), s.at),
                             cap);
      } else {
        CountedElsewhere(b, s, period, cap, window);
      }
    }
  }

  lemma CountedKeepsRanks(b: Boards, s: Submission, period: Period, cap: nat)
    requires AllRanked(b)
    ensures AllRanked(Counted(b, s, period, cap))
  {
    var b', at := Counted(b, s, period, cap), WindowIn(s, period);
    forall window ensures Ranked(ListAt(b'.lists, window), TableAt(b'.scores, window)) {
      if window == at {
        RefreshKeepsRanks(ListAt(b.lists, at), TableAt(b.scores, at), Entry(s.player, Scored(b, s, period), s.at), cap);
      } else {
        CountedElsewhere(b, s, period, cap, window);
      }
    }
  }

  /** A period not counted keeps its record. */
  lemma OtherBestKept(b: Boards, s: Submission, period: Period, cap: nat, other: Period)
    requires other != period && IsBest(b, other, Get(b.highs, other))
    ensures var b' := Counted(b, s, period, cap); IsBest(b', other, Get(b'.highs, other))
  {
    var b' := Counted(b, s, period, cap);
    forall window: Window | window.period == other ensures TableAt(b'.scores, window) == TableAt(b.scores, window) {
      CountedElsewhere(b, s, period, cap, window);
    }
    if Get(b.highs, other) != 0 {
      var window: Window, p :|
        window.period == other && p in TableAt(b.scores, window) && TableAt(b.scores, window)[p] == Get(b.highs, other);
      assert p in TableAt(b'.scores, window);
    }
  }

  lemma CountedBest(b: Boards, s: Submission, period: Period, cap: nat)
    requires IsBest(b, period, Get(b.highs, period)) && s.score >= 0
    ensures var b' := Counted(b, s, period, cap); IsBest(b', period, Get(b'.highs, period))
  {
    var b', at, total := Counted(b, s, period, cap), WindowIn(s, period), Scored(b, s, period);
    assert TableAt(b'.scores, at) == TableAt(b.scores, at)[s.player := total];
    forall window: Window | window != at ensures TableAt(b'.scores, window) == TableAt(b.scores, window) {
      CountedElsewhere(b, s, period, cap, window);
    }
    var high := Get(b.highs, period);
    if total > high {
      assert s.player in TableAt(b'.scores, at) && TableAt(b'.scores, at)[s.player] == total;
    } else if high != 0 {
      var window: Window, p :|
        window.period == period && p in TableAt(b.scores, window) && TableAt(b.scores, window)[p] == high;
      assert p in TableAt(b'.scores, window) && TableAt(b'.scores, window)[p] == high;
    }
  }

  lemma CountedKeepsBest(b: Boards, s: Submission, period: Period, cap: nat, other: Period)
    requires IsBest(b, other, Get(b.highs, other)) && s.score >= 0
    ensures var b' := Counted(b, s, period, cap); IsBest(b', other, Get(b'.highs, other))
  {
    if other == period {
      CountedBest(b, s, period, cap);
    } else {
      OtherBestKept(b, s, period, cap, other);
    }
  }

  lemma CountedTable(b: Boards, s: Submission, period: Period, cap: nat, window: Window)
    ensures TableAt(Counted(b, s, period, cap).scores, window)
         == if window == WindowIn(s, period) then Credited(TableAt(b.scores, window), s, window)
            else TableAt(b.scores, window)
  {
    if window != WindowIn(s, period) { CountedElsewhere(b, s, period, cap, window); }
  }

  lemma CountedAllTable(b: Boards, s: Submission, cap: nat, window: Window)
    ensures TableAt(CountedAll(b, s, cap).scores, window) == Credited(TableAt(b.scores, window), s, window)
  {
    var b1 := Counted(b, s, Daily, cap);
    var b2 := Counted(b1, s, Weekly, cap);
    CountedTable(b, s, Daily, cap, window);
    CountedTable(b1, s, Weekly, cap, window);
    CountedTable(b2, s, AllTime, cap, window);
  }

  lemma CountedHere(b: Boards, s: Submission, period: Period, cap: nat)
    ensures ListAt(Counted(b, s, period, cap).lists, WindowIn(s, period))
         == Refreshed(ListAt(b.lists, WindowIn(s, period)), Entry(s.player, Scored(b, s, period), s.at), cap)
  {
  }

  lemma CountedAllList(b: Boards, s: Submission, cap: nat, window: Window)
    requires WindowIn(s, window.period) == window
    ensures ListAt(CountedAll(b, s, cap).lists, window)
         == Refreshed(ListAt(b.lists, window), Entry(s.player, Scored(b, s, window.period), s.at), cap)
  {
    var b1 := Counted(b, s, Daily, cap);
    var b2 := Counted(b1, s, Weekly, cap);
    match window.period
    case Daily =>
      CountedHere(b, s, Daily, cap);
      CountedElsewhere(b1, s, Weekly, cap, window);
      CountedElsewhere(b2, s, AllTime, cap, window);
    case Weekly =>
      CountedElsewhere(b, s, Daily, cap, window);
      CountedHere(b1, s, Weekly, cap);
      CountedElsewhere(b2, s, AllTime, cap, window);
    case AllTime =>
      CountedElsewhere(b, s, Daily, cap, window);
      CountedElsewhere(b1, s, Weekly, cap, window);
      CountedHere(b2, s, AllTime, cap);
  }

  lemma LogTableAdded(log: seq<Change>, s: Submission, window: Window)
    ensures LogTable(log + [Added(s)], window)
         == Credited(LogTable(log, window), s, window)
  {
    assert (log + [Added(s)])[..|log|] == log;
  }

  lemma CountedAllMatchesWindow(b: Boards, s: Submission, cap: nat, log: seq<Change>, window: Window)
    requires TableAt(b.scores, window) == LogTable(log, window)
    ensures TableAt(CountedAll(b, s, cap).scores, window) == LogTable(log + [Added(s)], window)
  {
    CountedAllTable(b, s, cap, window);
    LogTableAdded(log, s, window);
  }

  lemma CountedAllMatchesLog(b: Boards, s: Submission, cap: nat, log: seq<Change>)
    requires TablesMatchLog(b, log)
    ensures TablesMatchLog(CountedAll(b, s, cap), log + [Added(s)])
  {
    forall window ensures TableAt(CountedAll(b, s, cap).scores, window) == LogTable(log + [Added(s)], window) {
      CountedAllMatchesWindow(b, s, cap, log, window);
    }
  }

  lemma CountedAllKeepsTopN(b: Boards, s: Submission, cap: nat)
    requires AllTopN(b, cap) && s.score >= 0 && cap >= 1
    ensures AllTopN(CountedAll(b, s, cap), cap)
  {
    var b1 := Counted(b, s, Daily, cap);
    var b2 := Counted(b1, s, Weekly, cap);
    CountedKeepsTopN(b, s, Daily, cap);
    CountedKeepsTopN(b1, s, Weekly, cap);
    CountedKeepsTopN(b2, s, AllTime, cap);
  }

  lemma CountedAllKeepsBest(b: Boards, s: Submission, cap: nat, period: Period)
    requires IsBest(b, period, Get(b.highs, period)) && s.score >= 0
    ensures var b' := CountedAll(b, s, cap); IsBest(b', period, Get(b'.highs, period))
  {
    var b1 := Counted(b, s, Daily, cap);
    var b2 := Counted(b1, s, Weekly, cap);
    CountedKeepsBest(b, s, Daily, cap, period);
    CountedKeepsBest(b1, s, Weekly, cap, period);
    CountedKeepsBest(b2, s, AllTime, cap, period);
  }

  lemma CountedAllKeepsHighs(b: Boards, s: Submission, cap: nat, log: seq<Change>)
    requires HighsAreBest(b, log) && s.score >= 0
    ensures HighsAreBest(CountedAll(b, s, cap), log + [Added(s)])
  {
    var b' := CountedAll(b, s, cap);
    forall period | PeriodUnreplaced(log + [Added(s)], period) ensures IsBest(b', period, Get(b'.highs, period)) {
      assert forall c :: c in log ==> c in log + [Added(s)];
      assert PeriodUnreplaced(log, period);
      CountedAllKeepsBest(b, s, cap, period);
    }
  }

  lemma HighAfter(b: Boards, s: Submission, cap: nat, period: Period)
    ensures Get(CountedAll(b, s, cap).highs, period)
         == if Scored(b, s, period) > Get(b.highs, period) then Scored(b, s, period) else Get(b.highs, period)
  {
    var b1 := Counted(b, s, Daily, cap);
    var b2 := Counted(b1, s, Weekly, cap);
    match period
    case Daily =>
    case Weekly => CountedElsewhere(b, s, Daily, cap, WindowIn(s, Weekly));
    case AllTime =>
      CountedElsewhere(b, s, Daily, cap, ALL_TIME);
      CountedElsewhere(b1, s, Weekly, cap, ALL_TIME);
  }

  lemma CountedAllMatchesHighs(b: Boards, s: Submission, cap: nat, log: seq<Change>)
    requires TablesMatchLog(b, log) && HighsMatchLog(b, log)
    ensures HighsMatchLog(CountedAll(b, s, cap), log + [Added(s)])
  {
    forall period ensures Get(CountedAll(b, s, cap).highs, period) == HighOf(log + [Added(s)], period) {
      HighAfter(b, s, cap, period);
      HighOfAdded(log, s, period);
      assert TableAt(b.scores, WindowIn(s, period)) == LogTable(log, WindowIn(s, period));
    }
  }

  lemma HighOfAdded(log: seq<Change>, s: Submission, period: Period)
    ensures var reached := Get(LogTable(log, WindowIn(s, period)), s.player) + s.score;
      HighOf(log + [Added(s)], period) == if reached > HighOf(log, period) then reached else HighOf(log, period)
  {
    assert (log + [Added(s)])[..|log|] == log;
  }

  lemma CountedAllKeepsRanks(b: Boards, s: Submission, cap: nat)
    requires AllRanked(b)
    ensures AllRanked(CountedAll(b, s, cap))
  {
    var b1 := Counted(b, s, Daily, cap);
    var b2 := Counted(b1, s, Weekly, cap);
    CountedKeepsRanks(b, s, Daily, cap);
    CountedKeepsRanks(b1, s, Weekly, cap);
    CountedKeepsRanks(b2, s, AllTime, cap);
  }

  // ---- Corrections ----

  /** An administrator's replacement of one score. */
  function Corrected(b: Boards, window: Window, e: Entry, cap: nat): Boards {
    b.(scores := b.scores[window := TableAt(b.scores, window)[e.player := e.score]],
       lists := b.lists[window := Refreshed(ListAt(b.lists, window), e, cap)])
  }

  lemma CorrectedKeepsRanks(b: Boards, window: Window, e: Entry, cap: nat)
    requires AllRanked(b)
    ensures AllRanked(Corrected(b, window, e, cap))
  {
    var b' := Corrected(b, window, e, cap);
    forall other ensures Ranked(ListAt(b'.lists, other), TableAt(b'.scores, other)) {
      if other == window {
        RefreshKeepsRanks(ListAt(b.lists, window), TableAt(b.scores, window), e, cap);
      } else {
        assert ListAt(b'.lists, other) == ListAt(b.lists, other);
        assert TableAt(b'.scores, other) == TableAt(b.scores, other);
      }
    }
  }

  lemma CorrectedMatchesLog(b: Boards, window: Window, e: Entry, cap: nat, log: seq<Change>)
    requires TablesMatchLog(b, log)
    ensures TablesMatchLog(Corrected(b, window, e, cap), log + [Replaced(window, e)])
  {
    var log' := log + [Replaced(window, e)];
    assert log'[..|log|] == log;
    forall other ensures TableAt(Corrected(b, window, e, cap).scores, other) == LogTable(log', other) {
      assert TableAt(b.scores, other) == LogTable(log, other);
    }
  }

  lemma CorrectedMatchesHighs(b: Boards, window: Window, e: Entry, cap: nat, log: seq<Change>)
    requires HighsMatchLog(b, log)
    ensures HighsMatchLog(Corrected(b, window, e, cap), log + [Replaced(window, e)])
  {
    assert (log + [Replaced(window, e)])[..|log|] == log;
  }

  /** The score `high` of another player, or of another period of the kind. */
  ghost predicate HeldElsewhere(b: Boards, window: Window, p: Address, high: int) {
    exists at: Window, q :: at.period == window.period && (at != window || q != p)
                         && q in TableAt(b.scores, at) && TableAt(b.scores, at)[q] == high
  }

  /** The replaced score does not pass the record, and does not take away the only
      score that reached it. */
  ghost predicate RecordFits(b: Boards, window: Window, e: Entry) {
    var high := Get(b.highs, window.period);
    e.score <= high && (high == 0 || e.score == high || HeldElsewhere(b, window, e.player, high))
  }

  /** A correction leaves the record the best score exactly when it fits it. */
  lemma CorrectionKeepsBestIff(b: Boards, window: Window, e: Entry, cap: nat)
    requires IsBest(b, window.period, Get(b.highs, window.period))
    ensures var b' := Corrected(b, window, e, cap);
      IsBest(b', window.period, Get(b'.highs, window.period)) <==> RecordFits(b, window, e)
  {
    var b', high := Corrected(b, window, e, cap), Get(b.highs, window.period);
    assert TableAt(b'.scores, window) == TableAt(b.scores, window)[e.player := e.score];
    forall at: Window | at != window ensures TableAt(b'.scores, at) == TableAt(b.scores, at) {
    }
    if RecordFits(b, window, e) {
      if high != 0 && e.score == high {
        assert TableAt(b'.scores, window)[e.player] == high;
      } else if high != 0 {
        var at: Window, q :| at.period == window.period && (at != window || q != e.player)
                             && q in TableAt(b.scores, at) && TableAt(b.scores, at)[q] == high;
        assert q in TableAt(b'.scores, at) && TableAt(b'.scores, at)[q] == high;
      }
    }
    if IsBest(b', window.period, high) {
      assert e.player in TableAt(b'.scores, window);
      if high != 0 && e.score != high {
        var at: Window, q :| at.period == window.period
                             && q in TableAt(b'.scores, at) && TableAt(b'.scores, at)[q] == high;
        assert q in TableAt(b.scores, at) && TableAt(b.scores, at)[q] == high;
      }
    }
  }

  lemma CorrectionLeavesOthers(b: Boards, window: Window, e: Entry, cap: nat, period: Period)
    requires window.period != period
    ensures var b' := Corrected(b, window, e, cap);
      IsBest(b', period, Get(b'.highs, period)) <==> IsBest(b, period, Get(b.highs, period))
  {
    var b', high := Corrected(b, window, e, cap), Get(b.highs, period);
    forall at: Window | at.period == period ensures TableAt(b'.scores, at) == TableAt(b.scores, at) {
    }
    if at: Window, p :| at.period == period && p in TableAt(b.scores, at) && TableAt(b.scores, at)[p] == high {
      assert p in TableAt(b'.scores, at) && TableAt(b'.scores, at)[p] == high;
    }
  }

  lemma CorrectedKeepsHighs(b: Boards, window: Window, e: Entry, cap: nat, log: seq<Change>)
    requires HighsAreBest(b, log)
    ensures HighsAreBest(Corrected(b, window, e, cap), log + [Replaced(window, e)])
  {
    var b', log' := Corrected(b, window, e, cap), log + [Replaced(window, e)];
    forall period | PeriodUnreplaced(log', period) ensures IsBest(b', period, Get(b'.highs, period)) {
      assert log'[|log|] in log' && forall c :: c in log ==> c in log';
      assert PeriodUnreplaced(log, period);
      CorrectionLeavesOthers(b, window, e, cap, period);
    }
  }

  /** The player was not listed, or is left with at least the score of every
      player that is not. */
  ghost predicate CorrectionFits(b: Boards, window: Window, e: Entry) {
    var list, t := ListAt(b.lists, window), TableAt(b.scores, window);
    !Lists(list, e.player) || forall p :: p in t && !Lists(list, p) ==> t[p] <= e.score
  }

  /** A correction keeps all lists the top of their tables exactly when it fits:
      nobody from outside a list is ever brought back in. */
  lemma CorrectionKeepsTopNIff(b: Boards, window: Window, e: Entry, cap: nat)
    requires AllTopN(b, cap) && cap >= 1
    ensures AllTopN(Corrected(b, window, e, cap), cap) <==> CorrectionFits(b, window, e)
  {
    var b' := Corrected(b, window, e, cap);
    assert IsTopN(ListAt(b.lists, window), TableAt(b.scores, window), cap);
    RefreshKeepsTopN(ListAt(b.lists, window), TableAt(b.scores, window), e, cap);
    forall other | other != window ensures IsTopN(ListAt(b'.lists, other), TableAt(b'.scores, other), cap) {
      assert ListAt(b'.lists, other) == ListAt(b.lists, other) && TableAt(b'.scores, other) == TableAt(b.scores, other);
    }
    assert ListAt(b'.lists, window) == Refreshed(ListAt(b.lists, window), e, cap);
  }

  // ---- New caps ----

  /** Every list fits the cap, and either fills it or leaves nobody out. */
  ghost predicate ResizeFits(b: Boards, cap: nat) {
    forall window {:trigger ListAt(b.lists, window)} ::
      var list := ListAt(b.lists, window);
      |list| <= cap && (|list| == cap || forall p :: p in TableAt(b.scores, window) ==> Lists(list, p))
  }

  /** A new cap keeps all lists the top of their tables exactly when it fits: a
      list is neither cut nor filled up when the cap changes. */
  lemma ResizeKeepsTopNIff(b: Boards, cap: nat, cap': nat)
    requires AllTopN(b, cap)
    ensures AllTopN(b, cap') <==> ResizeFits(b, cap')
  {
    forall window ensures var list, t := ListAt(b.lists, window), TableAt(b.scores, window);
      IsTopN(list, t, cap') <==> |list| <= cap' && (|list| == cap' || forall p :: p in t ==> Lists(list, p))
    {
      assert IsTopN(ListAt(b.lists, window), TableAt(b.scores, window), cap);
      ResizeKeepsTopN(ListAt(b.lists, window), TableAt(b.scores, window), cap, cap');
    }
  }
}
