/** A run in which a sender gets twice the rate limit through within the length of
    one window. */
module RouterExamples {
  import opened Host
  import opened MessageQueue
  import opened RateLimits
  import opened RouterRuns

  const OPEN := RouteConfig(Address(0), 0, None, None, true)

  /** One open route; `used` messages of `s` count in the window of `now`. */
  ghost predicate Ready(w: World, limit: RateLimit, s: Address, now: nat, used: nat) {
    && Reachable(w) && w.limit == limit && ValidLimit(limit) && w.routes == map[0 := OPEN] && w.time <= now
    && var u := UsageOf(w.usages, s, now / limit.window);
       used == if u.window == now / limit.window then u.count else 0
  }

  lemma Opens(admin: Address, limit: RateLimit) returns (w: World)
    requires ValidLimit(limit)
    ensures Reachable(w) && w == Start(admin, limit).(routes := map[0 := OPEN])
  {
    StartIsReachable(admin, limit);
    w := Step(Start(admin, limit), Register(admin, 0, Address(0), 0, None, None));
    ReachableStep(Start(admin, limit), Register(admin, 0, Address(0), 0, None, None));
  }

  lemma Sends(w: World, limit: RateLimit, s: Address, now: nat, used: nat) returns (w': World)
    requires Ready(w, limit, s, now, used) && used < limit.max
    requires w.store.nextId < U64_MAX && w.store.tail < U64_MAX
    ensures Ready(w', limit, s, now, used + 1)
    ensures w'.store.nextId == w.store.nextId + 1 && w'.store.tail == w.store.tail + 1 && w'.time == now
    ensures TimesOf(w'.accepted, s) == TimesOf(w.accepted, s) + [now]
    ensures s in w'.usages && w'.usages[s].window == now / limit.window
  {
    var c := Queue(s, 0, 0, true, None, None, now);
    w' := Step(w, c);
    ReachableStep(w, c);
    assert Routing(w.routes, 0, None, None) == Ok((None, None));
  }

  /** `n` more messages in the same second. */
  lemma {:induction false} SendsMany(w: World, limit: RateLimit, s: Address, now: nat, used: nat, n: nat,
                                     from: nat, to: nat)
      returns (w': World)
    requires Ready(w, limit, s, now, used) && used + n <= limit.max && from <= now < to
    requires w.store.nextId + n <= U64_MAX && w.store.tail + n <= U64_MAX
    ensures Ready(w', limit, s, now, used + n)
    ensures w'.store.nextId == w.store.nextId + n && w'.store.tail == w.store.tail + n
    ensures if n == 0 then w' == w else s in w'.usages && w'.usages[s].window == now / limit.window && w'.time == now
    ensures Between(TimesOf(w'.accepted, s), from, to) == Between(TimesOf(w.accepted, s), from, to) + n
    decreases n
  {
    w' := w;
    if n > 0 {
      var w1 := Sends(w, limit, s, now, used);
      OneMore(TimesOf(w.accepted, s), now, from, to);
      w' := SendsMany(w1, limit, s, now, used + 1, n - 1, from, to);
    }
  }

  lemma OneMore(times: seq<nat>, t: nat, from: nat, to: nat)
    requires from <= t < to
    ensures Between(times + [t], from, to) == Between(times, from, to) + 1
  {
    assert (times + [t])[..|times|] == times;
  }

  /** The bound of twice the limit is tight for every limit and every window of
      two seconds or more: so many messages pass at the end of one window and so
      many again at the start of the next. */
  lemma TwiceTheLimitPasses(admin: Address, s: Address, limit: RateLimit)
    requires limit.window >= 2 && 1 <= limit.max <= U32_MAX
    ensures exists w :: Reachable(w) && w.limit == limit
                     && Between(TimesOf(w.accepted, s), limit.window - 1, 2 * limit.window - 1) == 2 * limit.max
  {
    var last, to := limit.window - 1, 2 * limit.window - 1;
    assert last / limit.window == 0 && limit.window / limit.window == 1;
    var w := Opens(admin, limit);
    w := SendsMany(w, limit, s, last, 0, limit.max, last, to);
    w := SendsMany(w, limit, s, limit.window, 0, limit.max, last, to);
  }
}
