/** What the router answers and does, call by call: which error when, whose callback a
    message gets, and what becomes of it. */
module RouterLaws {
  import opened Host
  import opened MessageQueue
  import opened RateLimits
  import opened RouterRuns

  // ---- Routes and limits ----

  lemma RouteIsRegistered(w: World, caller: Address, key: Symbol, target: Address, targetMethod: Symbol,
                          callback: Option<Address>, callbackMethod: Option<Symbol>)
    ensures var r := AfterRegister(w, caller, key, target, targetMethod, callback, callbackMethod);
      && (r == Err(Unauthorized) <==> caller != w.admin)
      && (r == Err(InvalidCallbackConfig) <==> caller == w.admin && (callback == None) != (callbackMethod == None))
      && (r.Ok? <==> caller == w.admin && ((callback == None) <==> (callbackMethod == None)))
      && (r.Ok? ==>
            && r.value == w.(routes := r.value.routes) && key in r.value.routes
            && r.value.routes == w.routes[key := r.value.routes[key]]
            && r.value.routes[key] == RouteConfig(target, targetMethod, callback, callbackMethod, true))
  {
  }

  lemma RouteIsSwitched(w: World, caller: Address, key: Symbol, enabled: bool)
    ensures var r := AfterEnable(w, caller, key, enabled);
      && (r == Err(Unauthorized) <==> caller != w.admin)
      && (r == Err(RouteNotFound) <==> caller == w.admin && key !in w.routes)
      && (r.Ok? <==> caller == w.admin && key in w.routes)
      && (r.Ok? ==> r.value == w.(routes := w.routes[key := w.routes[key].(enabled := enabled)]))
  {
  }

  lemma LimitIsSet(w: World, caller: Address, limit: RateLimit)
    ensures var r := AfterSetLimit(w, caller, limit);
      && (r == Err(Unauthorized) <==> caller != w.admin)
      && (r == Err(InvalidConfig) <==> caller == w.admin && (limit.window == 0 || limit.max == 0))
      && (r.Ok? <==> caller == w.admin && limit.window > 0 && limit.max > 0)
      && (r.Ok? ==> r.value == w.(limit := limit, accepted := map[]))
  {
  }

  // ---- Sending ----

  /** The sender has used up the limit in the window of `now`. */
  ghost predicate UsedUp(w: World, sender: Address, now: nat)
    requires w.limit.window > 0
  {
    && sender in w.usages && w.usages[sender].window == now / w.limit.window
    && w.usages[sender].count >= w.limit.max
  }

  /** One half of a callback without the other, with the message or with its route. */
  ghost predicate HalfCallback(r: RouteConfig, callback: Option<Address>, callbackMethod: Option<Symbol>) {
    (callback == None) != (callbackMethod == None) || (r.callback == None) != (r.callbackMethod == None)
  }

  /** The first thing that is wrong decides: no such route, a disabled one, half a
      callback, too many messages. */
  lemma SendingErrors(w: World, sender: Address, route: Symbol, payload: Bytes, atomic: bool,
                      callback: Option<Address>, callbackMethod: Option<Symbol>, now: nat)
    requires w.limit.window > 0 && w.limit.max > 0
    ensures var r := AfterQueue(w, sender, route, payload, atomic, callback, callbackMethod, now);
      if route !in w.routes then r == Err(RouteNotFound)
      else if !w.routes[route].enabled then r == Err(RouteDisabled)
      else if HalfCallback(w.routes[route], callback, callbackMethod) then r == Err(InvalidCallbackConfig)
      else if UsedUp(w, sender, now) then r == Err(RateLimited)
      else (r.Ok? <==> w.store.nextId < U64_MAX && w.store.tail < U64_MAX)
  {
  }

  /** An accepted message goes to the target of its route with what was sent, under the
      next id, at the end of the queue. Its callback is the one it names, or else that
      of its route. The sender's count for the window grows by one. */
  lemma SendingStores(w: World, sender: Address, route: Symbol, payload: Bytes, atomic: bool,
                      callback: Option<Address>, callbackMethod: Option<Symbol>, now: nat)
    requires w.limit.window > 0
    requires AfterQueue(w, sender, route, payload, atomic, callback, callbackMethod, now).Ok?
    ensures route in w.routes
    ensures var w', id, r := AfterQueue(w, sender, route, payload, atomic, callback, callbackMethod, now).value,
                             w.store.nextId, w.routes[route];
      && id in w'.store.messages && w'.store.messages == w.store.messages[id := w'.store.messages[id]]
      && w'.store.slots == w.store.slots[w.store.tail := id] && w'.store.head == w.store.head
      && w'.store.tail == w.store.tail + 1 && w'.store.nextId == id + 1
      && (var m := w'.store.messages[id];
          && m.id == id && m.route == route && m.sender == sender && m.payload == payload && m.atomic == atomic
          && m.target == r.target && m.targetMethod == r.targetMethod && m.status == Queued && m.queuedAt == now
          && m.callback == (if callback == None then r.callback else callback)
          && m.callbackMethod == (if callback == None then r.callbackMethod else callbackMethod)
          && m.processedAt == None && m.response == None && m.lastError == None)
      && sender in w'.usages && w'.usages == w.usages[sender := w'.usages[sender]]
      && w'.usages[sender].window == now / w.limit.window
      && w'.usages[sender].count
         == 1 + (if sender in w.usages && w.usages[sender].window == now / w.limit.window
                 then w.usages[sender].count else 0)
      && w'.routes == w.routes && w'.limit == w.limit && w'.admin == w.admin && w'.time == now
      && w'.departed == w.departed
  {
  }

  // ---- Processing ----

  predicate Calls(m: Message) {
    m.callback != None && m.callbackMethod != None
  }

  ghost predicate OthersStay(s: Store, s': Store, id: nat) {
    forall k :: k in s.messages && k != id ==> k in s'.messages && s'.messages[k] == s.messages[k]
  }

  /** The message at the head is delivered, with the target's answer, if the target
      answers and the callback, if there is one, accepts. */
  lemma AnswerIsDelivered(w: World, response: Bytes, accepted: bool, now: nat)
    requires Reachable(w) && w.store.head < w.store.tail
    ensures w.store.head + 1 in w.store.messages
    ensures var id, p := w.store.head + 1, ProcessNext(w.store, Some(response), accepted, now);
      (Calls(w.store.messages[id]) ==> accepted) ==>
        && p.result == Ok(Outcome(id, Delivered, Some(response))) && p.store.head == id
        && id in p.store.messages && OthersStay(w.store, p.store, id)
        && p.store.messages[id] == w.store.messages[id].(status := Delivered, processedAt := Some(now),
                                                         response := Some(response), lastError := None)
  {
    HeadIsQueued(w);
  }

  lemma HeadIsQueued(w: World)
    requires Reachable(w) && w.store.head < w.store.tail
    ensures Peek(w.store) == Ok(w.store.head + 1) && w.store.head + 1 in w.store.messages
    ensures w.store.messages[w.store.head + 1].id == w.store.head + 1
    ensures w.store.messages[w.store.head + 1].status == Queued
  {
    assert StoreSound(w.store) by { ReachableIsSound(w); }
    HeadMessage(w.store);
  }

  /** If the target fails, an atomic message leaves no trace and any other is stored as
      failed and leaves the queue. */
  lemma TargetFailureIsStored(w: World, accepted: bool, now: nat)
    requires Reachable(w) && w.store.head < w.store.tail
    ensures w.store.head + 1 in w.store.messages
    ensures var id, p := w.store.head + 1, ProcessNext(w.store, None, accepted, now);
      && p.result == Err(TargetInvocationFailed)
      && (w.store.messages[id].atomic ==> p.store == w.store)
      && (!w.store.messages[id].atomic ==>
            && p.store.head == id && id in p.store.messages && OthersStay(w.store, p.store, id)
            && p.store.messages[id] == w.store.messages[id].(status := Failed, processedAt := Some(now),
                                                             lastError := Some(TargetInvocationFailed)))
  {
    HeadIsQueued(w);
  }

  /** The same if the callback refuses, the target's answer being kept. */
  lemma CallbackFailureIsStored(w: World, response: Bytes, now: nat)
    requires Reachable(w) && w.store.head < w.store.tail
    ensures w.store.head + 1 in w.store.messages
    ensures var id, p := w.store.head + 1, ProcessNext(w.store, Some(response), false, now);
      Calls(w.store.messages[id]) ==>
        && p.result == Err(CallbackInvocationFailed)
        && (w.store.messages[id].atomic ==> p.store == w.store)
        && (!w.store.messages[id].atomic ==>
              && p.store.head == id && id in p.store.messages && OthersStay(w.store, p.store, id)
              && p.store.messages[id]
                 == w.store.messages[id].(status := CallbackFailed, processedAt := Some(now),
                                          response := Some(response), lastError := Some(CallbackInvocationFailed)))
  {
    HeadIsQueued(w);
  }
}
