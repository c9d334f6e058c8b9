/** What a day or week of the leaderboard is: its tables go by number, and the
    number stands for a stretch of time only while the length of the periods is
    the one under which the scores came in. */
module LeaderboardPeriods {
  import opened Host
  import opened Sums
  import opened TopN
  import opened Arithmetic
  import opened LeaderboardBooks
  import opened LeaderboardRuns
  import Runs

  /** `at` lies in the stretch of time that the window stands for. */
  predicate Spans(day: nat, week: nat, window: Window, at: nat) {
    match window.period
    case Daily => window.id * day <= at < (window.id + 1) * day
    case Weekly => window.id * week <= at < (window.id + 1) * week
    case AllTime => window == ALL_TIME
  }

  function TimeOf(c: Change): nat {
    match c
    case Added(s) => s.at
    case Replaced(_, e) => e.timestamp
  }

  /** A submission counts for every kind of period, a replacement for one. */
  predicate Concerns(c: Change, period: Period) {
    c.Added? || c.window.period == period
  }

  /** The window in which a change was made. */
  function WindowOf(c: Change, period: Period): Window {
    match c
    case Added(s) => WindowIn(s, period)
    case Replaced(window, _) => window
  }

  function Changed(t: Table, c: Change): Table {
    match c
    case Added(s) => t[s.player := Get(t, s.player) + s.score]
    case Replaced(_, e) => t[e.player := e.score]
  }

  /** The score table of a stretch of time: what was submitted and replaced in it. */
  ghost function TableOver(log: seq<Change>, day: nat, week: nat, window: Window): Table {
    if log == [] then map[] else
      var t, c := TableOver(log[..|log| - 1], day, week, window), log[|log| - 1];
      if Concerns(c, window.period) && Spans(day, week, window, TimeOf(c)) then Changed(t, c) else t
  }

  /** Every change was made in the window that its time belongs to under these
      lengths. */
  ghost predicate Filed(log: seq<Change>, day: nat, week: nat, period: Period) {
    forall c :: c in log && Concerns(c, period) ==>
      WindowNow(day, week, period, TimeOf(c)) == Some(WindowOf(c, period))
  }

  lemma NumberSpans(at: nat, len: nat, k: nat)
    requires len > 0
    ensures at / len == k <==> k * len <= at < (k + 1) * len
  {
    assert at == at / len * len + at % len;
    if k * len <= at < (k + 1) * len {
      DivIs(at, k, at - k * len, len);
    }
  }

  /** The window of a moment is the one that spans it. */
  lemma WindowSpans(day: nat, week: nat, window: Window, at: nat)
    ensures WindowNow(day, week, window.period, at) == Some(window) <==> Spans(day, week, window, at)
  {
    match window.period
    case Daily => if day > 0 { NumberSpans(at, day, window.id); }
    case Weekly => if week > 0 { NumberSpans(at, week, window.id); }
    case AllTime =>
  }

  lemma CurrentSpans(day: nat, week: nat, period: Period, now: nat)
    ensures var window := WindowNow(day, week, period, now);
      window.Some? ==> window.value.period == period && Spans(day, week, window.value, now)
  {
    var window := WindowNow(day, week, period, now);
    if window.Some? { WindowSpans(day, week, window.value, now); }
  }

  /** Under given lengths a change was made in its window exactly if the windows
      that span its time are the windows it was made in. */
  lemma FiledChangeIff(c: Change, day: nat, week: nat, period: Period)
    requires WindowOf(c, period).period == period
    ensures WindowNow(day, week, period, TimeOf(c)) == Some(WindowOf(c, period)) <==>
      forall window: Window :: window.period == period ==>
        (WindowOf(c, period) == window <==> Spans(day, week, window, TimeOf(c)))
  {
    WindowSpans(day, week, WindowOf(c, period), TimeOf(c));
    forall window: Window | window.period == period
      ensures WindowNow(day, week, period, TimeOf(c)) == Some(window) <==> Spans(day, week, window, TimeOf(c))
    {
      WindowSpans(day, week, window, TimeOf(c));
    }
  }

  /** So long as all changes are filed under the current lengths, the table of a
      number is the table of the stretch of time it stands for. */
  lemma {:induction false} FiledTable(log: seq<Change>, day: nat, week: nat, window: Window)
    requires Filed(log, day, week, window.period)
    ensures LogTable(log, window) == TableOver(log, day, week, window)
    decreases |log|
  {
    if log != [] {
      var init, c := log[..|log| - 1], log[|log| - 1];
      assert c in log && forall x :: x in init ==> x in log;
      FiledTable(init, day, week, window);
      WindowSpans(day, week, window, TimeOf(c));
    }
  }

  /** The change was made in another window than its time belongs to now. */
  ghost predicate Misfiled(c: Change, day: nat, week: nat, period: Period) {
    Concerns(c, period) && WindowNow(day, week, period, TimeOf(c)) != Some(WindowOf(c, period))
  }

  lemma FiledLonger(log: seq<Change>, c: Change, day: nat, week: nat, period: Period)
    ensures Filed(log + [c], day, week, period) <==> Filed(log, day, week, period) && !Misfiled(c, day, week, period)
  {
    assert forall x :: x in log + [c] <==> x in log || x == c;
  }

  /** While all changes are filed under the lengths, the next call ends that exactly
      if it sets lengths under which some earlier change would belong elsewhere. */
  lemma MisfiledIff(w: World, c: Call, period: Period)
    requires Filed(w.log, w.config.day, w.config.week, period)
    ensures var w' := Step(w, c);
      !Filed(w'.log, w'.config.day, w'.config.week, period) <==>
      (c.UpdatePeriods? && Next(w, c).Some? && exists x :: x in w.log && Misfiled(x, c.day, c.week, period))
  {
    match c
    case Submit(submitter, player, score, now) =>
      if Next(w, c).Some? {
        var s := Submission(player, score, now, now / w.config.day, now / w.config.week);
        FiledLonger(w.log, Added(s), w.config.day, w.config.week, period);
      }
    case UpdateScore(caller, player, score, at, now) =>
      if Next(w, c).Some? {
        var window := WindowNow(w.config.day, w.config.week, at, now).value;
        FiledLonger(w.log, Replaced(window, Entry(player, score, now)), w.config.day, w.config.week, period);
      }
    case UpdatePeriods(caller, day, week) =>
      if Next(w, c).Some? && !Filed(w.log, day, week, period) {
        var x :| x in w.log && Concerns(x, period)
                 && WindowNow(day, week, period, TimeOf(x)) != Some(WindowOf(x, period));
        assert Misfiled(x, day, week, period);
      }
    case _ =>
  }

  /** The call leaves the length of this kind of period alone. */
  predicate KeepsLength(c: Call, day: nat, week: nat, period: Period) {
    c.UpdatePeriods? ==> (period == Daily ==> c.day == day) && (period == Weekly ==> c.week == week)
  }

  lemma {:induction false} KeptLengthsFile(w: World, calls: seq<Call>, period: Period)
    requires Filed(w.log, w.config.day, w.config.week, period)
    requires forall c :: c in calls ==> KeepsLength(c, w.config.day, w.config.week, period)
    ensures var v := Runs.Run(Step, w, calls); Filed(v.log, v.config.day, v.config.week, period)
    decreases |calls|
  {
    if calls != [] {
      var c := calls[0];
      assert KeepsLength(c, w.config.day, w.config.week, period);
      MisfiledIff(w, c, period);
      var w' := Step(w, c);
      forall x | x in calls[1..] ensures KeepsLength(x, w'.config.day, w'.config.week, period) {
        assert KeepsLength(x, w.config.day, w.config.week, period);
      }
      KeptLengthsFile(w', calls[1..], period);
    }
  }

  /** In every run in which the length of a kind of period is never changed, the
      table of a number is the table of its stretch of time. */
  lemma UnchangedLengthsTellTheTime(admin: Address, maxTop: nat, calls: seq<Call>, window: Window)
    requires forall c :: c in calls ==> KeepsLength(c, DAY, WEEK, window.period)
    ensures var w := Runs.Run(Step, Start(admin, maxTop), calls);
      && Filed(w.log, w.config.day, w.config.week, window.period)
      && LogTable(w.log, window) == TableOver(w.log, w.config.day, w.config.week, window)
  {
    var w := Runs.Run(Step, Start(admin, maxTop), calls);
    KeptLengthsFile(Start(admin, maxTop), calls, window.period);
    FiledTable(w.log, w.config.day, w.config.week, window);
  }
}
