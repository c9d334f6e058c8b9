/** Runs of the cross-contract router. Ledger time never goes back; `keep` says
    whether the host keeps what a processing call wrote before it returned an
    error. */
module RouterRuns {
  import opened Host
  import opened MessageQueue
  import opened RateLimits
  import Runs

  datatype RouteConfig = RouteConfig(
    target: Address, targetMethod: Symbol, callback: Option<Address>, callbackMethod: Option<Symbol>, enabled: bool)

  datatype World = World(
    admin: Address, limit: RateLimit, routes: map<Symbol, RouteConfig>, usages: map<Address, Usage>, store: Store,
    time: nat,
    departed: seq<nat>,                   // the messages that left the queue, in order
    accepted: map<Address, seq<nat>>,     // when messages were accepted since the limit was set
    kept: bool)                           // did the host ever keep a failed call's writes

  const EMPTY := Store(map[], map[], 0, 0, 1, map[])

  function Start(admin: Address, limit: RateLimit): World {
    World(admin, limit, map[], map[], EMPTY, 0, [], map[], false)
  }

  predicate Paired(contract: Option<Address>, callbackMethod: Option<Symbol>) {
    contract.Some? == callbackMethod.Some?
  }

  /** The callback of a message: its own, or else the route's. */
  function Resolve(route: RouteConfig, contract: Option<Address>, callbackMethod: Option<Symbol>)
      : Result<(Option<Address>, Option<Symbol>)> {
    if !Paired(contract, callbackMethod) || !Paired(route.callback, route.callbackMethod)
    then Err(InvalidCallbackConfig)
    else if contract.Some? then Ok((contract, callbackMethod))
    else Ok((route.callback, route.callbackMethod))
  }

  /** The enabled route and the callback a new message gets. */
  function Routing(routes: map<Symbol, RouteConfig>, route: Symbol,
                   contract: Option<Address>, callbackMethod: Option<Symbol>)
      : Result<(Option<Address>, Option<Symbol>)> {
    if route !in routes then Err(RouteNotFound)
    else if !routes[route].enabled then Err(RouteDisabled)
    else Resolve(routes[route], contract, callbackMethod)
  }

  function TimesOf(accepted: map<Address, seq<nat>>, sender: Address): seq<nat> {
    if sender in accepted then accepted[sender] else []
  }

  function AfterSetLimit(w: World, caller: Address, limit: RateLimit): Result<World> {
    if caller != w.admin then Err(Unauthorized)
    else if !ValidLimit(limit) then Err(InvalidConfig)
    else Ok(w.(limit := limit, accepted := map[]))
  }

  function AfterRegister(w: World, caller: Address, key: Symbol, target: Address, targetMethod: Symbol,
                         callback: Option<Address>, callbackMethod: Option<Symbol>): Result<World> {
    if caller != w.admin then Err(Unauthorized)
    else if !Paired(callback, callbackMethod) then Err(InvalidCallbackConfig)
    else Ok(w.(routes := w.routes[key := RouteConfig(target, targetMethod, callback, callbackMethod, true)]))
  }

  function AfterEnable(w: World, caller: Address, key: Symbol, enabled: bool): Result<World> {
    if caller != w.admin then Err(Unauthorized)
    else if key !in w.routes then Err(RouteNotFound)
    else Ok(w.(routes := w.routes[key := w.routes[key].(enabled := enabled)]))
  }

  function NewMessage(id: nat, route: Symbol, r: RouteConfig, sender: Address, payload: Bytes, atomic: bool,
                      callback: (Option<Address>, Option<Symbol>), now: nat): Message {
    Message(id, route, sender, payload, atomic, r.target, r.targetMethod, callback.0, callback.1,
            Queued, now, None, None, None)
  }

  /** A message past the rate limit and into the queue. */
  function Accepting(limit: RateLimit, usages: map<Address, Usage>, store: Store, m: Message)
      : Result<(map<Address, Usage>, Store)>
    requires limit.window > 0 && m.id == store.nextId
  {
    var current := m.queuedAt / limit.window;
    var usage := Admit(UsageOf(usages, m.sender, current), limit, current);
    if usage.None? then Err(RateLimited)
    else
      var queued := Enqueue(store, m);
      if queued.None? then Err(Overflow) else Ok((usages[m.sender := usage.value], queued.value))
  }

  function AfterQueue(w: World, sender: Address, route: Symbol, payload: Bytes, atomic: bool,
                      callback: Option<Address>, callbackMethod: Option<Symbol>, now: nat): Result<World> {
    var resolved := Routing(w.routes, route, callback, callbackMethod);
    if w.limit.window == 0 then Err(Overflow)
    else if resolved.Err? then Err(resolved.error)
    else
      var m := NewMessage(w.store.nextId, route, w.routes[route], sender, payload, atomic, resolved.value, now);
      match Accepting(w.limit, w.usages, w.store, m)
      case Err(e) => Err(e)
      case Ok((usages, store)) =>
        Ok(w.(store := store, usages := usages, time := now,
              accepted := w.accepted[sender := TimesOf(w.accepted, sender) + [now]]))
  }

  /** A processing call with the host's decision on its writes. */
  function AfterProcess(w: World, target: Option<Bytes>, accepted: bool, now: nat, keep: bool): World {
    var p := ProcessNext(w.store, target, accepted, now);
    var store := Settled(w.store, p, keep);
    w.(store := store, time := now, kept := w.kept || (p.result.Err? && keep),
       departed := if store.head > w.store.head && w.store.head in w.store.slots
                   then w.departed + [w.store.slots[w.store.head]] else w.departed)
  }

  datatype Call =
    | SetLimit(caller: Address, limit: RateLimit)
    | Register(caller: Address, key: Symbol, target: Address, targetMethod: Symbol,
               callback: Option<Address>, callbackMethod: Option<Symbol>)
    | Enable(caller: Address, key: Symbol, enabled: bool)
    | Queue(sender: Address, route: Symbol, payload: Bytes, atomic: bool,
            callback: Option<Address>, callbackMethod: Option<Symbol>, now: nat)
    | Process(answer: Option<Bytes>, accepted: bool, now: nat, keep: bool)

  function OrSame(w: World, r: Result<World>): World {
    match r case Ok(w') => w' case Err(_) => w
  }

  function Step(w: World, c: Call): World {
    match c
    case SetLimit(caller, limit) => OrSame(w, AfterSetLimit(w, caller, limit))
    case Register(caller, key, target, targetMethod, callback, callbackMethod) =>
      OrSame(w, AfterRegister(w, caller, key, target, targetMethod, callback, callbackMethod))
    case Enable(caller, key, enabled) => OrSame(w, AfterEnable(w, caller, key, enabled))
    case Queue(sender, route, payload, atomic, callback, callbackMethod, now) =>
      if now < w.time then w
      else OrSame(w, AfterQueue(w, sender, route, payload, atomic, callback, callbackMethod, now))
    case Process(answer, accepted, now, keep) =>
      if now < w.time then w else AfterProcess(w, answer, accepted, now, keep)
  }

  ghost predicate Reachable(w: World) {
    exists admin, limit :: ValidLimit(limit) && Runs.ReachableFrom(Step, Start(admin, limit), w)
  }

  lemma ReachableStep(w: World, c: Call)
    requires Reachable(w)
    ensures Reachable(Step(w, c))
  {
    var admin, limit :| ValidLimit(limit) && Runs.ReachableFrom(Step, Start(admin, limit), w);
    Runs.ReachableNext(Step, Start(admin, limit), w, c);
  }

  lemma StartIsReachable(admin: Address, limit: RateLimit)
    requires ValidLimit(limit)
    ensures Reachable(Start(admin, limit))
  {
    Runs.ReachableNow(Step, Start(admin, limit));
  }

  // ---- The invariant ----

  ghost predicate FifoSound(departed: seq<nat>, head: nat) {
    |departed| == head && forall i :: 0 <= i < |departed| ==> departed[i] == i + 1
  }

  ghost predicate SendOrder(messages: map<nat, Message>, now: nat) {
    && (forall id :: id in messages ==> messages[id].queuedAt <= now)
    && (forall i, j :: i in messages && j in messages && i < j ==> messages[i].queuedAt <= messages[j].queuedAt)
  }

  ghost predicate RatesSound(w: World) {
    forall s {:trigger TimesOf(w.accepted, s)} :: SenderSound(TimesOf(w.accepted, s), w.usages, s, w.limit, w.time)
  }

  ghost predicate NoFailures(messages: map<nat, Message>) {
    forall id :: id in messages ==> messages[id].status in {Queued, Delivered}
  }

  /** Callback contract and method come together or not at all. */
  ghost predicate PairsSound(w: World) {
    && (forall k :: k in w.routes ==> Paired(w.routes[k].callback, w.routes[k].callbackMethod))
    && (forall id :: id in w.store.messages ==>
          Paired(w.store.messages[id].callback, w.store.messages[id].callbackMethod))
  }

  ghost predicate Sound(w: World) {
    && StoreSound(w.store) && PairsSound(w)
    && FifoSound(w.departed, w.store.head) && SendOrder(w.store.messages, w.time)
    && ValidLimit(w.limit) && RatesSound(w) && (!w.kept ==> NoFailures(w.store.messages))
  }

  lemma QueueKeepsRates(w: World, w': World, sender: Address, now: nat)
    requires ValidLimit(w.limit) && RatesSound(w) && now >= w.time && w'.limit == w.limit && w'.time == now
    requires var u := Admit(UsageOf(w.usages, sender, now / w.limit.window), w.limit, now / w.limit.window);
      u.Some? && w'.usages == w.usages[sender := u.value]
    requires w'.accepted == w.accepted[sender := TimesOf(w.accepted, sender) + [now]]
    ensures RatesSound(w')
  {
    forall s ensures SenderSound(TimesOf(w'.accepted, s), w'.usages, s, w'.limit, w'.time) {
      assert SenderSound(TimesOf(w.accepted, s), w.usages, s, w.limit, w.time);
      if s == sender {
        AdmitKeepsLimit(TimesOf(w.accepted, s), w.usages, s, w.limit, w.time, now);
      }
    }
  }

  lemma SetLimitKeepsRates(w: World, limit: RateLimit)
    requires ValidLimit(limit)
    ensures RatesSound(w.(limit := limit, accepted := map[]))
  {
  }

  lemma TimeKeepsRates(w: World, w': World)
    requires RatesSound(w) && w'.limit == w.limit && w'.usages == w.usages && w'.accepted == w.accepted
    requires w.time <= w'.time
    ensures RatesSound(w')
  {
    forall s ensures SenderSound(TimesOf(w'.accepted, s), w'.usages, s, w'.limit, w'.time) {
      assert SenderSound(TimesOf(w.accepted, s), w.usages, s, w.limit, w.time);
    }
  }

  lemma QueueKeepsSound(w: World, sender: Address, route: Symbol, payload: Bytes, atomic: bool,
                        callback: Option<Address>, callbackMethod: Option<Symbol>, now: nat)
    requires Sound(w) && now >= w.time
    requires AfterQueue(w, sender, route, payload, atomic, callback, callbackMethod, now).Ok?
    ensures Sound(AfterQueue(w, sender, route, payload, atomic, callback, callbackMethod, now).value)
  {
    var w' := AfterQueue(w, sender, route, payload, atomic, callback, callbackMethod, now).value;
    var resolved := Routing(w.routes, route, callback, callbackMethod);
    var m := NewMessage(w.store.nextId, route, w.routes[route], sender, payload, atomic, resolved.value, now);
    QueueKeepsRates(w, w', sender, now);
    EnqueuedKeepsSound(w, w', m, now);
  }

  lemma EnqueuedKeepsOrder(messages: map<nat, Message>, m: Message, time: nat, next: nat)
    requires SendOrder(messages, time) && m.queuedAt >= time && forall id :: id in messages ==> id < next
    ensures SendOrder(messages[next := m], m.queuedAt)
  {
  }

  /** A message at the end of the queue keeps everything but the rates. */
  lemma EnqueuedKeepsSound(w: World, w': World, m: Message, now: nat)
    requires Sound(w) && now >= w.time && RatesSound(w') && ValidLimit(w'.limit)
    requires m.id == w.store.nextId && m.status == Queued && m.processedAt == None && m.response == None
    requires m.lastError == None && m.queuedAt == now && Paired(m.callback, m.callbackMethod)
    requires Enqueue(w.store, m) == Some(w'.store)
    requires w'.time == now && w'.routes == w.routes && w'.departed == w.departed && w'.kept == w.kept
    ensures Sound(w')
  {
    EnqueueKeepsStore(w.store, m);
    assert forall id :: id in w.store.messages ==> id < w.store.nextId;
    EnqueuedKeepsOrder(w.store.messages, m, w.time, w.store.nextId);
    assert w'.store.messages == w.store.messages[w.store.nextId := m];
  }

  /** Between two stores only message `at` differs, and it was sent as before;
      unless a failure was kept, it is at most delivered. */
  ghost predicate OnlyTouches(s: Store, s': Store, at: nat, failed: bool) {
    && s'.messages.Keys == s.messages.Keys
    && (forall id :: id in s.messages && id != at ==>
          s'.messages[id] == s.messages[id] && TrailOf(s'.audits, id) == TrailOf(s.audits, id))
    && (forall id :: id in s.messages ==>
          && s'.messages[id].queuedAt == s.messages[id].queuedAt
          && s'.messages[id].callback == s.messages[id].callback
          && s'.messages[id].callbackMethod == s.messages[id].callbackMethod)
    && (!failed ==> forall id :: id in s.messages ==> s'.messages[id].status in {s.messages[id].status, Delivered})
  }

  lemma CloseTouches(s: Store, s1: Store, m: Message, e: AuditEntry, result: Result<Outcome>)
    requires m.id in s.messages && m.queuedAt == s.messages[m.id].queuedAt && m.status != Queued
    requires m.callback == s.messages[m.id].callback && m.callbackMethod == s.messages[m.id].callbackMethod
    requires s1.messages == s.messages && forall id :: id != m.id ==> TrailOf(s1.audits, id) == TrailOf(s.audits, id)
    ensures OnlyTouches(s, Close(s1, m, e, result).store, m.id, m.status != Delivered)
  {
  }

  lemma SuccessTouchesHead(s: Store, target: Option<Bytes>, accepted: bool, now: nat, keep: bool)
    requires StoreSound(s) && s.head < s.tail && s.head + 1 in s.messages
    requires Succeeds(s.messages[s.head + 1], target, accepted)
    ensures var p := ProcessNext(s, target, accepted, now);
      OnlyTouches(s, Settled(s, p, keep), s.head + 1, p.result.Err? && keep)
  {
    HeadMessage(s);
    var m := s.messages[s.head + 1];
    var m' := m.(status := Delivered, processedAt := Some(now), response := target, lastError := None);
    CloseTouches(s, RouteAndCall(s, m, now), m', AuditEntry(now, WasDelivered, Delivered, None),
                 Ok(Outcome(m.id, Delivered, target)));
  }

  /** Processing changes the head message only. */
  lemma ProcessTouchesHead(s: Store, target: Option<Bytes>, accepted: bool, now: nat, keep: bool)
    requires StoreSound(s)
    ensures var p := ProcessNext(s, target, accepted, now);
      OnlyTouches(s, Settled(s, p, keep), s.head + 1, p.result.Err? && keep)
  {
    if s.head < s.tail {
      HeadMessage(s);
      var m := s.messages[s.head + 1];
      if Succeeds(m, target, accepted) {
        SuccessTouchesHead(s, target, accepted, now, keep);
      } else if target.None? {
        CloseTouches(s, s, m.(status := Failed, processedAt := Some(now), lastError := Some(TargetInvocationFailed)),
                     AuditEntry(now, HasFailed, Failed, Some(TargetInvocationFailed)), Err(TargetInvocationFailed));
      } else {
        var m' := m.(status := CallbackFailed, processedAt := Some(now), response := target,
                     lastError := Some(CallbackInvocationFailed));
        CloseTouches(s, Route(s, m, now), m',
                     AuditEntry(now, CallbackHasFailed, CallbackFailed, Some(CallbackInvocationFailed)),
                     Err(CallbackInvocationFailed));
      }
    }
  }

  lemma TouchedMessagesSound(messages: map<nat, Message>, s: Store, s': Store, at: nat, failed: bool, now: nat,
                             later: nat)
    requires s.messages == messages && SendOrder(messages, now) && OnlyTouches(s, s', at, failed) && now <= later
    ensures SendOrder(s'.messages, later)
    ensures NoFailures(messages) && !failed ==> NoFailures(s'.messages)
  {
  }

  lemma ProcessKeepsSound(w: World, target: Option<Bytes>, accepted: bool, now: nat, keep: bool)
    requires Sound(w) && now >= w.time
    ensures Sound(AfterProcess(w, target, accepted, now, keep))
  {
    var w' := AfterProcess(w, target, accepted, now, keep);
    var failed := ProcessNext(w.store, target, accepted, now).result.Err? && keep;
    assert StoreSound(w'.store) && FifoSound(w'.departed, w'.store.head) by {
      ProcessKeepsStore(w.store, target, accepted, now, keep);
    }
    assert OnlyTouches(w.store, w'.store, w.store.head + 1, failed) by {
      ProcessTouchesHead(w.store, target, accepted, now, keep);
    }
    TouchedMessagesSound(w.store.messages, w.store, w'.store, w.store.head + 1, failed, w.time, now);
    TimeKeepsRates(w, w');
  }

  lemma AdminKeepsSound(w: World, c: Call)
    requires Sound(w) && (c.SetLimit? || c.Register? || c.Enable?)
    ensures Sound(Step(w, c))
  {
    if c.SetLimit? {
      if ValidLimit(c.limit) { SetLimitKeepsRates(w, c.limit); }
    } else {
      TimeKeepsRates(w, Step(w, c));
    }
  }

  lemma StepKeepsSound(w: World, c: Call)
    requires Sound(w)
    ensures Sound(Step(w, c))
  {
    match c
    case Queue(sender, route, payload, atomic, callback, callbackMethod, now) =>
      if now >= w.time && AfterQueue(w, sender, route, payload, atomic, callback, callbackMethod, now).Ok? {
        QueueKeepsSound(w, sender, route, payload, atomic, callback, callbackMethod, now);
      }
    case Process(answer, accepted, now, keep) =>
      if now >= w.time { ProcessKeepsSound(w, answer, accepted, now, keep); }
    case _ => AdminKeepsSound(w, c);
  }

  lemma StartIsSound(admin: Address, limit: RateLimit)
    requires ValidLimit(limit)
    ensures Sound(Start(admin, limit))
  {
  }

  lemma ReachableIsSound(w: World)
    requires Reachable(w)
    ensures Sound(w)
  {
    var admin, limit :| ValidLimit(limit) && Runs.ReachableFrom(Step, Start(admin, limit), w);
    StartIsSound(admin, limit);
    forall v, c | Sound(v) ensures Sound(Step(v, c)) {
      StepKeepsSound(v, c);
    }
    Runs.ReachableKeeps(Step, Sound, Start(admin, limit), w);
  }

  // ---- For every run ----

  /** Messages leave in the order in which they were sent, each at most once, and
      those still queued are exactly the ones behind the head. */
  lemma QueueIsFifo(w: World)
    requires Reachable(w)
    ensures w.departed == seq(w.store.head, i => i + 1)
    ensures forall i :: i in w.store.slots <==> w.store.head <= i < w.store.tail
    ensures forall i :: i in w.store.slots ==> w.store.slots[i] == i + 1
    ensures forall id :: id in w.store.messages ==> (w.store.messages[id].status == Queued <==> id !in w.departed)
    ensures forall i, j :: i in w.store.messages && j in w.store.messages && i < j ==>
              w.store.messages[i].queuedAt <= w.store.messages[j].queuedAt
  {
    ReachableIsSound(w);
    forall id: nat | id in w.store.messages ensures w.store.messages[id].status == Queued <==> id !in w.departed {
      if id <= w.store.head {
        assert w.departed[id - 1] == id;
      }
    }
  }

  /** A message has a complete callback or none, so a half-configured one never
      skips its callback silently. */
  lemma CallbacksAreComplete(w: World, id: nat)
    requires Reachable(w) && id in w.store.messages
    ensures var m := w.store.messages[id];
      (HasCallback(m) <==> m.callback.Some?) && (HasCallback(m) <==> m.callbackMethod.Some?)
  {
    ReachableIsSound(w);
  }

  /** The audit trail of a message is exactly the one its status calls for. */
  lemma TrailsTellTheStatus(w: World, id: nat)
    requires Reachable(w)
    ensures id in w.store.messages ==> Actions(TrailOf(w.store.audits, id)) == TrailFor(w.store.messages[id])
    ensures id !in w.store.messages ==> TrailOf(w.store.audits, id) == []
  {
    ReachableIsSound(w);
  }

  ghost predicate Same(s: Store, s': Store, id: nat) {
    && id in s.messages && id in s'.messages && s'.messages[id] == s.messages[id]
    && TrailOf(s'.audits, id) == TrailOf(s.audits, id)
  }

  lemma EnqueueStays(s: Store, m: Message, id: nat)
    requires StoreSound(s) && m.id == s.nextId && Enqueue(s, m).Some? && id in s.messages
    ensures Same(s, Enqueue(s, m).value, id)
  {
  }

  lemma ProcessingLeavesOthers(w: World, c: Call, id: nat)
    requires StoreSound(w.store) && c.Process? && id in w.store.messages && w.store.messages[id].status != Queued
    ensures Same(w.store, Step(w, c).store, id)
  {
    ProcessTouchesHead(w.store, c.answer, c.accepted, c.now, c.keep);
    assert Step(w, c).store == w.store || id != w.store.head + 1;
  }

  /** A message that left the queue never changes again, nor does its trail. */
  lemma ProcessedMessagesStay(w: World, c: Call, id: nat)
    requires Reachable(w) && id in w.store.messages && w.store.messages[id].status != Queued
    ensures Same(w.store, Step(w, c).store, id)
  {
    assert StoreSound(w.store) by { ReachableIsSound(w); }
    if c.Process? {
      ProcessingLeavesOthers(w, c, id);
    } else if Step(w, c).store != w.store {
      QueueingLeavesOthers(w, c, id);
    }
  }

  lemma QueueingLeavesOthers(w: World, c: Call, id: nat)
    requires StoreSound(w.store) && !c.Process? && Step(w, c).store != w.store && id in w.store.messages
    ensures Same(w.store, Step(w, c).store, id)
  {
    EnqueueStays(w.store, Step(w, c).store.messages[w.store.nextId], id);
  }

  /** If the host discards what failed calls wrote, no message is ever marked
      failed: it is delivered or it waits at the head of the queue. */
  lemma DiscardedFailuresLeaveNoTrace(w: World, id: nat)
    requires Reachable(w) && !w.kept && id in w.store.messages
    ensures w.store.messages[id].status in {Queued, Delivered}
  {
    ReachableIsSound(w);
  }

  /** The internal error cases of processing cannot happen. */
  lemma ProcessingErrors(w: World, target: Option<Bytes>, accepted: bool, now: nat)
    requires Reachable(w)
    ensures var r := ProcessNext(w.store, target, accepted, now).result;
      && (r == Err(QueueEmpty) <==> w.store.head == w.store.tail)
      && (r.Err? ==> r.error in {QueueEmpty, TargetInvocationFailed, CallbackInvocationFailed})
  {
    ReachableIsSound(w);
    ProcessKeepsStore(w.store, target, accepted, now, true);
  }

  /** The head moves on exactly after a delivery or after a failure of a
      non-atomic message whose writes are kept; otherwise the failing message
      blocks the queue. */
  lemma HeadAdvancesIff(w: World, target: Option<Bytes>, accepted: bool, now: nat, keep: bool)
    requires Reachable(w) && w.store.head < w.store.tail
    ensures w.store.head + 1 in w.store.messages
    ensures var m := w.store.messages[w.store.head + 1];
      var w' := AfterProcess(w, target, accepted, now, keep);
      && (w'.store.head == w.store.head + 1 <==> Succeeds(m, target, accepted) || (keep && !m.atomic))
      && (w'.store.head != w.store.head + 1 ==> w'.store == w.store)
  {
    ReachableIsSound(w);
    HeadMessage(w.store);
    ProcessKeepsStore(w.store, target, accepted, now, keep);
  }

  /** Since the limit was last set, a sender got at most `max` messages through in
      each aligned window, and at most twice that in any interval of a window's
      length. */
  lemma SendersAreLimited(w: World, sender: Address, k: nat, from: nat)
    requires Reachable(w)
    ensures w.limit.window > 0
    ensures Count(TimesOf(w.accepted, sender), w.limit.window, k) <= w.limit.max
    ensures Between(TimesOf(w.accepted, sender), from, from + w.limit.window) <= 2 * w.limit.max
  {
    ReachableIsSound(w);
    assert SenderSound(TimesOf(w.accepted, sender), w.usages, sender, w.limit, w.time);
    IntervalIsLimited(TimesOf(w.accepted, sender), w.usages, sender, w.limit, w.time, from);
  }
}
