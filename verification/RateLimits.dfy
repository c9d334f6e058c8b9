/** The per-sender rate limit: a counter for the current aligned window stands in
    for the times of all accepted messages. */
module RateLimits {
  import opened Host
  import opened Arithmetic

  datatype RateLimit = RateLimit(window: nat, max: nat)

  datatype Usage = Usage(window: nat, count: nat)

  predicate ValidLimit(c: RateLimit) {
    c.window > 0 && c.max > 0
  }

  function UsageOf(usages: map<Address, Usage>, sender: Address, current: nat): Usage {
    if sender in usages then usages[sender] else Usage(current, 0)
  }

  /** The usage after one more message; None if the limit is reached. */
  function Admit(u: Usage, c: RateLimit, current: nat): Option<Usage> {
    if u.window != current then Some(Usage(current, 1))
    else if u.count >= c.max then None
    else Some(Usage(current, u.count + 1))
  }

  /** How many of `times` lie in the aligned window `k`. */
  ghost function Count(times: seq<nat>, window: nat, k: nat): nat
    requires window > 0
  {
    if times == [] then 0
    else Count(times[..|times| - 1], window, k) + if times[|times| - 1] / window == k then 1 else 0
  }

  /** How many of `times` lie in the half-open interval from `from` to `to`. */
  ghost function Between(times: seq<nat>, from: nat, to: nat): nat {
    if times == [] then 0
    else Between(times[..|times| - 1], from, to) + if from <= times[|times| - 1] < to then 1 else 0
  }

  ghost predicate Ascending(times: seq<nat>, now: nat) {
    && (forall i, j :: 0 <= i < j < |times| ==> times[i] <= times[j])
    && (times != [] ==> times[|times| - 1] <= now)
  }

  /** No aligned window holds more than the limit, and the counter covers the
      window of the last message. */
  ghost predicate SenderSound(times: seq<nat>, usages: map<Address, Usage>, sender: Address, c: RateLimit, now: nat) {
    && ValidLimit(c) && Ascending(times, now)
    && (forall k: nat :: Count(times, c.window, k) <= c.max)
    && (times != [] ==>
          var last := times[|times| - 1] / c.window;
          sender in usages && usages[sender].window == last && Count(times, c.window, last) <= usages[sender].count)
  }

  lemma NextWindow(t: nat, d: nat)
    requires d > 0
    ensures (t + d) / d == t / d + 1
  {
    var q := t / d;
    assert t == q * d + t % d;
    assert (q + 1) * d == q * d + d;
    DivIs(t + d, q + 1, t % d, d);
  }

  /** Windows after the last message are empty. */
  lemma {:induction false} NothingLater(times: seq<nat>, window: nat, k: nat)
    requires window > 0 && times != [] ==> k > times[|times| - 1] / window
    requires window > 0 && Ascending(times, if times == [] then 0 else times[|times| - 1])
    ensures Count(times, window, k) == 0
    decreases |times|
  {
    if times != [] {
      var init := times[..|times| - 1];
      if init != [] {
        DivMonotone(init[|init| - 1], times[|times| - 1], window);
      }
      NothingLater(init, window, k);
    }
  }

  lemma AdmitKeepsLimit(times: seq<nat>, usages: map<Address, Usage>, sender: Address, c: RateLimit, now: nat,
                        later: nat)
    requires SenderSound(times, usages, sender, c, now) && now <= later
    requires Admit(UsageOf(usages, sender, later / c.window), c, later / c.window).Some?
    ensures var u := Admit(UsageOf(usages, sender, later / c.window), c, later / c.window).value;
      SenderSound(times + [later], usages[sender := u], sender, c, later)
  {
    var current := later / c.window;
    var times' := times + [later];
    assert times'[..|times'| - 1] == times;
    if times == [] {
      assert Count(times, c.window, current) == 0;
    } else if usages[sender].window != current {
      DivMonotone(times[|times| - 1], later, c.window);
      NothingLater(times, c.window, current);
    }
    forall k: nat ensures Count(times', c.window, k) <= c.max {
      assert Count(times, c.window, k) <= c.max;
    }
  }

  /** Two neighbouring aligned windows cover any interval of a window's length. */
  lemma {:induction false} IntervalInTwoWindows(times: seq<nat>, window: nat, from: nat)
    requires window > 0
    ensures var k := from / window;
      Between(times, from, from + window) <= Count(times, window, k) + Count(times, window, k + 1)
    decreases |times|
  {
    if times != [] {
      IntervalInTwoWindows(times[..|times| - 1], window, from);
      var t := times[|times| - 1];
      if from <= t < from + window {
        DivMonotone(from, t, window);
        DivMonotone(t, from + window, window);
        NextWindow(from, window);
      }
    }
  }

  lemma IntervalIsLimited(times: seq<nat>, usages: map<Address, Usage>, sender: Address, c: RateLimit, now: nat,
                          from: nat)
    requires SenderSound(times, usages, sender, c, now)
    ensures Between(times, from, from + c.window) <= 2 * c.max
  {
    IntervalInTwoWindows(times, c.window, from);
    var k := from / c.window;
    assert Count(times, c.window, k) <= c.max && Count(times, c.window, k + 1) <= c.max;
  }
}
