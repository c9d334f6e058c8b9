/** The cross-contract router: storage updated in place, proved against the state
    machine of RouterRuns. */
module CrossContract {
  import opened Host
  import opened MessageQueue
  import opened RateLimits
  import opened RouterRuns

  /** A call that returns a Result either takes the state on or, with an error,
      leaves it as it was. */
  ghost predicate Returns<T>(before: World, next: Result<World>, after: World, r: Result<T>) {
    match next
    case Ok(w) => r.Ok? && after == w
    case Err(e) => r == Err(e) && after == before
  }

  method Initialize(admin: Address, window: u64, max: u32) returns (c: CrossContract?)
    ensures c == null <==> !ValidLimit(RateLimit(window, max))
    ensures c != null ==> fresh(c) && c.Valid() && c.world == Start(admin, RateLimit(window, max))
  {
    if window == 0 || max == 0 {
      return null;
    }
    c := new CrossContract(admin, RateLimit(window, max));
  }

  class CrossContract {
    const admin: Address
    var limit: RateLimit
    var routes: map<Symbol, RouteConfig>
    var usages: map<Address, Usage>
    var messages: map<nat, Message>
    var slots: map<nat, nat>
    var head: nat
    var tail: nat
    var nextId: nat
    var audits: map<nat, seq<AuditEntry>>
    ghost var world: World

    ghost function Stored(): Store
      reads this`messages, this`slots, this`head, this`tail, this`nextId, this`audits
    {
      Store(messages, slots, head, tail, nextId, audits)
    }

    ghost predicate Valid()
      reads this
    {
      && Reachable(world)
      && admin == world.admin && limit == world.limit && routes == world.routes && usages == world.usages
      && Stored() == world.store
    }

    constructor (admin: Address, limit: RateLimit)
      requires ValidLimit(limit)
      ensures Valid() && world == Start(admin, limit)
    {
      this.admin, this.limit, routes, usages := admin, limit, map[], map[];
      messages, slots, head, tail, nextId, audits := map[], map[], 0, 0, 1, map[];
      world := Start(admin, limit);
      new;
      StartIsReachable(admin, limit);
    }

    // ---- Administration ----

    method SetRateLimit(caller: Address, window: u64, max: u32) returns (r: Result<()>)
      requires Valid()
      modifies this
      ensures Valid() && Returns(old(world), AfterSetLimit(old(world), caller, RateLimit(window, max)), world, r)
    {
      if caller != admin {
        return Err(Unauthorized);
      }
      if window == 0 || max == 0 {
        return Err(InvalidConfig);
      }
      ReachableStep(world, Call.SetLimit(caller, RateLimit(window, max)));
      limit := RateLimit(window, max);
      world := AfterSetLimit(world, caller, limit).value;
      r := Ok(());
    }

    method RegisterRoute(caller: Address, key: Symbol, target: Address, targetMethod: Symbol,
                         callback: Option<Address>, callbackMethod: Option<Symbol>) returns (r: Result<()>)
      requires Valid()
      modifies this
      ensures Valid()
      ensures Returns(old(world),
                      AfterRegister(old(world), caller, key, target, targetMethod, callback, callbackMethod), world, r)
    {
      if caller != admin {
        return Err(Unauthorized);
      }
      if callback.Some? != callbackMethod.Some? {
        return Err(InvalidCallbackConfig);
      }
      ReachableStep(world, Call.Register(caller, key, target, targetMethod, callback, callbackMethod));
      world := AfterRegister(world, caller, key, target, targetMethod, callback, callbackMethod).value;
      routes := routes[key := RouteConfig(target, targetMethod, callback, callbackMethod, true)];
      r := Ok(());
    }

    method SetRouteEnabled(caller: Address, key: Symbol, enabled: bool) returns (r: Result<()>)
      requires Valid()
      modifies this
      ensures Valid() && Returns(old(world), AfterEnable(old(world), caller, key, enabled), world, r)
    {
      if caller != admin {
        return Err(Unauthorized);
      }
      if key !in routes {
        return Err(RouteNotFound);
      }
      ReachableStep(world, Call.Enable(caller, key, enabled));
      world := AfterEnable(world, caller, key, enabled).value;
      routes := routes[key := routes[key].(enabled := enabled)];
      r := Ok(());
    }

    // ---- Queueing ----

    method EnforceRateLimit(sender: Address, now: nat) returns (ok: bool)
      requires limit.window > 0
      modifies this`usages
      ensures var admitted := Admit(UsageOf(old(usages), sender, now / limit.window), limit, now / limit.window);
        && ok == admitted.Some?
        && usages == if ok then old(usages)[sender := admitted.value] else old(usages)
    {
      var current := now / limit.window;
      var usage := UsageOf(usages, sender, current);
      if usage.window == current {
        if usage.count >= limit.max {
          return false;
        }
        usages := usages[sender := Usage(current, usage.count + 1)];
      } else {
        usages := usages[sender := Usage(current, 1)];
      }
      ok := true;
    }

    method AppendAudit(id: nat, e: AuditEntry)
      modifies this`audits
      ensures Stored() == WithAudit(old(Stored()), id, e)
    {
      audits := audits[id := TrailOf(audits, id) + [e]];
    }

    method PushQueue(id: nat)
      modifies this`slots, this`tail
      ensures slots == old(slots)[old(tail) := id] && tail == old(tail) + 1
    {
      slots := slots[tail := id];
      tail := tail + 1;
    }

    method Append(m: Message)
      requires m.id == nextId && nextId < U64_MAX && tail < U64_MAX
      modifies this`messages, this`slots, this`tail, this`nextId, this`audits
      ensures Enqueue(old(Stored()), m) == Some(Stored())
    {
      nextId := nextId + 1;
      messages := messages[m.id := m];
      PushQueue(m.id);
      AppendAudit(m.id, AuditEntry(m.queuedAt, Enqueued, Queued, None));
    }

    method QueueMessage(sender: Address, route: Symbol, payload: Bytes, atomic: bool,
                        callback: Option<Address>, callbackMethod: Option<Symbol>, now: u64) returns (r: Result<nat>)
      requires Valid() && now >= world.time
      modifies this
      ensures Valid()
      ensures Returns(old(world),
                      AfterQueue(old(world), sender, route, payload, atomic, callback, callbackMethod, now), world, r)
      ensures r.Ok? ==> r.value == old(nextId)
    {
      assert limit.window > 0 by { ReachableIsSound(world); }
      var resolved := Routing(routes, route, callback, callbackMethod);
      if resolved.Err? {
        return Err(resolved.error);
      }
      ghost var next := AfterQueue(world, sender, route, payload, atomic, callback, callbackMethod, now);
      assert next.Ok? ==> Reachable(next.value) by {
        ReachableStep(world, Call.Queue(sender, route, payload, atomic, callback, callbackMethod, now));
      }
      r := Accept(NewMessage(nextId, route, routes[route], sender, payload, atomic, resolved.value, now));
      if r.Ok? {
        world := next.value;
      }
    }

    /** A message past the rate limit and into the queue; an overflow of the ids
        panics, so the host takes the new usage back. */
    method Accept(m: Message) returns (r: Result<nat>)
      requires limit.window > 0 && m.id == nextId
      modifies this`usages, this`messages, this`slots, this`tail, this`nextId, this`audits
      ensures match Accepting(limit, old(usages), old(Stored()), m)
        case Ok((u, s)) => r == Ok(m.id) && usages == u && Stored() == s
        case Err(e) => r == Err(e) && usages == old(usages) && Stored() == old(Stored())
    {
      var saved := usages;
      var admitted := EnforceRateLimit(m.sender, m.queuedAt);
      if !admitted {
        return Err(RateLimited);
      }
      if nextId >= U64_MAX || tail >= U64_MAX {
        usages := saved;
        return Err(Overflow);
      }
      Append(m);
      r := Ok(m.id);
    }

    // ---- Processing ----

    method PeekQueue() returns (r: Result<nat>)
      ensures r == Peek(Stored())
    {
      if head >= tail {
        return Err(QueueEmpty);
      }
      r := if head in slots then Ok(slots[head]) else Err(UnexpectedQueueState);
    }

    method PopQueue(expected: nat) returns (ok: bool)
      modifies this`slots, this`head
      ensures ok <==> old(head) in old(slots) && old(slots)[old(head)] == expected
      ensures slots == if ok then old(slots) - {old(head)} else old(slots)
      ensures head == if ok then old(head) + 1 else old(head)
    {
      ok := head in slots && slots[head] == expected;
      if ok {
        slots, head := slots - {head}, head + 1;
      }
    }

    /** Stores the processed message, pops it and closes its audit trail. */
    method Finish(m: Message, e: AuditEntry, result: Result<Outcome>) returns (r: Result<Outcome>)
      modifies this`messages, this`slots, this`head, this`audits
      ensures Processed(Stored(), r) == Close(old(Stored()), m, e, result)
    {
      messages := messages[m.id := m];
      var popped := PopQueue(m.id);
      if !popped {
        return Err(UnexpectedQueueState);
      }
      AppendAudit(m.id, e);
      r := result;
    }

    method ProcessAtomically(m: Message, target: Option<Bytes>, accepted: bool, now: nat) returns (r: Result<Outcome>)
      modifies this`messages, this`slots, this`head, this`audits
      ensures Processed(Stored(), r) == ProcessAtomic(old(Stored()), m, target, accepted, now)
    {
      if target.None? {
        return Err(TargetInvocationFailed);
      }
      if HasCallback(m) {
        if !accepted {
          return Err(CallbackInvocationFailed);
        }
        AppendAudit(m.id, AuditEntry(now, Routed, Queued, None));
        AppendAudit(m.id, AuditEntry(now, CallbackSucceeded, Queued, None));
      } else {
        AppendAudit(m.id, AuditEntry(now, Routed, Queued, None));
      }
      var done := m.(status := Delivered, processedAt := Some(now), response := target, lastError := None);
      r := Finish(done, AuditEntry(now, WasDelivered, Delivered, None), Ok(Outcome(m.id, Delivered, target)));
    }

    method ProcessNonAtomically(m: Message, target: Option<Bytes>, accepted: bool, now: nat)
        returns (r: Result<Outcome>)
      modifies this`messages, this`slots, this`head, this`audits
      ensures Processed(Stored(), r) == ProcessNonAtomic(old(Stored()), m, target, accepted, now)
    {
      if target.None? {
        var failed := m.(status := Failed, processedAt := Some(now), lastError := Some(TargetInvocationFailed));
        r := Finish(failed, AuditEntry(now, HasFailed, Failed, Some(TargetInvocationFailed)),
                    Err(TargetInvocationFailed));
        return;
      }
      AppendAudit(m.id, AuditEntry(now, Routed, Queued, None));
      if HasCallback(m) {
        if !accepted {
          var failed := m.(status := CallbackFailed, processedAt := Some(now), response := target,
                           lastError := Some(CallbackInvocationFailed));
          r := Finish(failed, AuditEntry(now, CallbackHasFailed, CallbackFailed, Some(CallbackInvocationFailed)),
                      Err(CallbackInvocationFailed));
          return;
        }
        AppendAudit(m.id, AuditEntry(now, CallbackSucceeded, Queued, None));
      }
      var done := m.(status := Delivered, processedAt := Some(now), response := target, lastError := None);
      r := Finish(done, AuditEntry(now, WasDelivered, Delivered, None), Ok(Outcome(m.id, Delivered, target)));
    }

    method Dispatch(target: Option<Bytes>, accepted: bool, now: nat) returns (r: Result<Outcome>)
      modifies this`messages, this`slots, this`head, this`audits
      ensures Processed(Stored(), r) == MessageQueue.ProcessNext(old(Stored()), target, accepted, now)
    {
      var id := PeekQueue();
      if id.Err? {
        return Err(id.error);
      }
      if id.value !in messages {
        return Err(MessageNotFound);
      }
      var m := messages[id.value];
      if m.status != Queued {
        return Err(MessageNotQueued);
      }
      if m.atomic {
        r := ProcessAtomically(m, target, accepted, now);
      } else {
        r := ProcessNonAtomically(m, target, accepted, now);
      }
    }

    /** The entry point, with the host's snapshot around it: unless `keep`, an
        error discards what was written. */
    method ProcessNext(target: Option<Bytes>, accepted: bool, now: u64, keep: bool) returns (r: Result<Outcome>)
      requires Valid() && now >= world.time
      modifies this
      ensures Valid() && world == AfterProcess(old(world), target, accepted, now, keep)
      ensures r == MessageQueue.ProcessNext(old(Stored()), target, accepted, now).result
    {
      var snapshot := (messages, slots, head, audits);
      ghost var next := AfterProcess(world, target, accepted, now, keep);
      assert Reachable(next) by { ReachableStep(world, Call.Process(target, accepted, now, keep)); }
      r := Dispatch(target, accepted, now);
      if r.Err? && !keep {
        messages, slots, head, audits := snapshot.0, snapshot.1, snapshot.2, snapshot.3;
      }
      world := next;
    }

    method GetQueueSize() returns (size: nat)
      requires Valid()
      ensures size == |slots|
    {
      size := if tail < head then 0 else tail - head;
      assert SlotsSound(Stored()) by { ReachableIsSound(world); }
      SlotCount(slots, head, tail);
    }
  }

  lemma {:induction false} SlotCount(slots: map<nat, nat>, head: nat, tail: nat)
    requires head <= tail && forall i: nat :: i in slots <==> head <= i < tail
    ensures |slots| == tail - head
    decreases tail - head
  {
    if head == tail {
      assert slots == map[];
    } else {
      SlotCount(slots - {tail - 1}, head, tail - 1);
      assert slots.Keys == (slots - {tail - 1}).Keys + {tail - 1};
      assert |slots| == |slots.Keys| && |slots - {tail - 1}| == |(slots - {tail - 1}).Keys|;
    }
  }
}
