/** The message queue of the cross-contract router: storage, the steps of
    processing one message, and what they keep. Target and callback contracts
    are arbitrary answers: a response or a failure, and acceptance or not. */
module MessageQueue {
  import opened Host

  datatype Status = Queued | Delivered | Failed | CallbackFailed

  datatype Action = Enqueued | Routed | CallbackSucceeded | WasDelivered | HasFailed | CallbackHasFailed

  datatype Error =
    | InvalidConfig | Unauthorized | RouteNotFound | RouteDisabled | InvalidCallbackConfig | RateLimited
    | QueueEmpty | MessageNotFound | MessageNotQueued | TargetInvocationFailed | CallbackInvocationFailed
    | UnexpectedQueueState
    | Overflow   // not an error of the contract: the call panics

  datatype Result<+T> = Ok(value: T) | Err(error: Error)

  type Bytes = nat

  type Symbol = nat

  datatype Message = Message(
    id: nat, route: Symbol, sender: Address, payload: Bytes, atomic: bool, target: Address, targetMethod: Symbol,
    callback: Option<Address>, callbackMethod: Option<Symbol>,
    status: Status, queuedAt: nat, processedAt: Option<nat>, response: Option<Bytes>, lastError: Option<Error>)

  datatype AuditEntry = AuditEntry(at: nat, action: Action, status: Status, error: Option<Error>)

  datatype Outcome = Outcome(id: nat, status: Status, response: Option<Bytes>)

  datatype Store = Store(
    messages: map<nat, Message>, slots: map<nat, nat>, head: nat, tail: nat, nextId: nat,
    audits: map<nat, seq<AuditEntry>>)

  /** What a processing call wrote and returned. */
  datatype Processed = Processed(store: Store, result: Result<Outcome>)

  function TrailOf(audits: map<nat, seq<AuditEntry>>, id: nat): seq<AuditEntry> {
    if id in audits then audits[id] else []
  }

  predicate HasCallback(m: Message) {
    m.callback.Some? && m.callbackMethod.Some?
  }

  // ---- Operations on the store ----

  function WithAudit(s: Store, id: nat, e: AuditEntry): Store {
    s.(audits := s.audits[id := TrailOf(s.audits, id) + [e]])
  }

  /** A new message at the tail; None stands for an overflow of the id. */
  function Enqueue(s: Store, m: Message): Option<Store>
    requires m.id == s.nextId
  {
    if s.nextId >= U64_MAX || s.tail >= U64_MAX then None
    else Some(WithAudit(s.(messages := s.messages[m.id := m], slots := s.slots[s.tail := m.id],
                           tail := s.tail + 1, nextId := s.nextId + 1),
                        m.id, AuditEntry(m.queuedAt, Enqueued, Queued, None)))
  }

  function Peek(s: Store): Result<nat> {
    if s.head >= s.tail then Err(QueueEmpty)
    else if s.head in s.slots then Ok(s.slots[s.head])
    else Err(UnexpectedQueueState)
  }

  /** Stores the processed message, takes it off the queue and closes its trail. */
  function Close(s: Store, m: Message, e: AuditEntry, result: Result<Outcome>): Processed {
    var stored := s.(messages := s.messages[m.id := m]);
    if s.head !in s.slots || s.slots[s.head] != m.id then Processed(stored, Err(UnexpectedQueueState))
    else Processed(WithAudit(stored.(slots := s.slots - {s.head}, head := s.head + 1), m.id, e), result)
  }

  function Deliver(s: Store, m: Message, response: Bytes, now: nat): Processed {
    Close(s, m.(status := Delivered, processedAt := Some(now), response := Some(response), lastError := None),
          AuditEntry(now, WasDelivered, Delivered, None), Ok(Outcome(m.id, Delivered, Some(response))))
  }

  function Route(s: Store, m: Message, now: nat): Store {
    WithAudit(s, m.id, AuditEntry(now, Routed, Queued, None))
  }

  function RouteAndCall(s: Store, m: Message, now: nat): Store {
    var routed := Route(s, m, now);
    if HasCallback(m) then WithAudit(routed, m.id, AuditEntry(now, CallbackSucceeded, Queued, None)) else routed
  }

  function ProcessAtomic(s: Store, m: Message, target: Option<Bytes>, accepted: bool, now: nat): Processed {
    if target.None? then Processed(s, Err(TargetInvocationFailed))
    else if HasCallback(m) && !accepted then Processed(s, Err(CallbackInvocationFailed))
    else Deliver(RouteAndCall(s, m, now), m, target.value, now)
  }

  function ProcessNonAtomic(s: Store, m: Message, target: Option<Bytes>, accepted: bool, now: nat): Processed {
    if target.None? then
      Close(s, m.(status := Failed, processedAt := Some(now), lastError := Some(TargetInvocationFailed)),
            AuditEntry(now, HasFailed, Failed, Some(TargetInvocationFailed)), Err(TargetInvocationFailed))
    else if HasCallback(m) && !accepted then
      Close(Route(s, m, now),
            m.(status := CallbackFailed, processedAt := Some(now), response := target,
               lastError := Some(CallbackInvocationFailed)),
            AuditEntry(now, CallbackHasFailed, CallbackFailed, Some(CallbackInvocationFailed)),
            Err(CallbackInvocationFailed))
    else Deliver(RouteAndCall(s, m, now), m, target.value, now)
  }

  function ProcessNext(s: Store, target: Option<Bytes>, accepted: bool, now: nat): Processed {
    match Peek(s)
    case Err(e) => Processed(s, Err(e))
    case Ok(id) =>
      if id !in s.messages then Processed(s, Err(MessageNotFound))
      else
        var m := s.messages[id];
        if m.status != Queued then Processed(s, Err(MessageNotQueued))
        else if m.atomic then ProcessAtomic(s, m, target, accepted, now)
        else ProcessNonAtomic(s, m, target, accepted, now)
  }

  /** What remains of a processing call: the host keeps the writes of a call that
      returned an error, or it discards them. */
  function Settled(s: Store, p: Processed, keep: bool): Store {
    if p.result.Err? && !keep then s else p.store
  }

  // ---- What the store promises ----

  function Actions(trail: seq<AuditEntry>): seq<Action> {
    seq(|trail|, i requires 0 <= i < |trail| => trail[i].action)
  }

  /** The only audit trails there are, one per status and callback. */
  function TrailFor(m: Message): seq<Action> {
    match m.status
    case Queued => [Enqueued]
    case Failed => [Enqueued, HasFailed]
    case CallbackFailed => [Enqueued, Routed, CallbackHasFailed]
    case Delivered =>
      if HasCallback(m) then [Enqueued, Routed, CallbackSucceeded, WasDelivered] else [Enqueued, Routed, WasDelivered]
  }

  ghost predicate SlotsSound(s: Store) {
    && s.head <= s.tail <= U64_MAX && s.nextId == s.tail + 1
    && (forall i: nat :: i in s.slots <==> s.head <= i < s.tail)
    && (forall i: nat :: i in s.slots ==> s.slots[i] == i + 1)
  }

  /** A message was processed exactly when the head has passed it; only those of
      non-atomic calls can have failed. */
  ghost predicate MessageSound(m: Message, id: nat, head: nat) {
    && m.id == id && (m.status == Queued <==> id > head)
    && (m.status == Queued <==> m.processedAt.None?)
    && (m.response.Some? <==> m.status in {Delivered, CallbackFailed})
    && (m.status in {Failed, CallbackFailed} ==> !m.atomic)
    && (m.status == CallbackFailed ==> HasCallback(m))
    && m.lastError == (match m.status
                       case Failed => Some(TargetInvocationFailed)
                       case CallbackFailed => Some(CallbackInvocationFailed)
                       case _ => None)
  }

  ghost predicate MessagesSound(s: Store) {
    && (forall id: nat :: id in s.messages <==> 1 <= id <= s.tail)
    && (forall id: nat :: id in s.messages ==> MessageSound(s.messages[id], id, s.head))
  }

  ghost predicate TrailsSound(s: Store) {
    && s.audits.Keys == s.messages.Keys
    && forall id: nat :: id in s.messages ==> Actions(TrailOf(s.audits, id)) == TrailFor(s.messages[id])
  }

  ghost predicate StoreSound(s: Store) {
    SlotsSound(s) && MessagesSound(s) && TrailsSound(s)
  }

  lemma EnqueueKeepsStore(s: Store, m: Message)
    requires StoreSound(s) && m.id == s.nextId && m.status == Queued && m.processedAt == None && m.response == None
    requires m.lastError == None
    requires Enqueue(s, m).Some?
    ensures StoreSound(Enqueue(s, m).value)
  {
  }

  /** Closing the head message, its trail being extended meanwhile. */
  lemma CloseKeepsStore(s: Store, trail: seq<AuditEntry>, m: Message, e: AuditEntry, result: Result<Outcome>)
    requires StoreSound(s) && s.head < s.tail && m.id == s.head + 1
    requires m.status != Queued && MessageSound(m, m.id, s.head + 1)
    requires Actions(trail + [e]) == TrailFor(m)
    ensures var p := Close(s.(audits := s.audits[m.id := trail]), m, e, result);
      StoreSound(p.store) && p.result == result && p.store.head == s.head + 1
  {
    var p := Close(s.(audits := s.audits[m.id := trail]), m, e, result);
    assert TrailOf(p.store.audits, m.id) == trail + [e];
  }

  // ---- Processing one message ----

  /** The target answered and, if there is a callback, it accepted. */
  predicate Succeeds(m: Message, target: Option<Bytes>, accepted: bool) {
    target.Some? && (HasCallback(m) ==> accepted)
  }

  lemma DeliverKeepsStore(s: Store, trail: seq<AuditEntry>, m: Message, response: Bytes, now: nat)
    requires StoreSound(s) && s.head < s.tail && m.id == s.head + 1
    requires Actions(trail) == if HasCallback(m) then [Enqueued, Routed, CallbackSucceeded] else [Enqueued, Routed]
    ensures var p := Deliver(s.(audits := s.audits[m.id := trail]), m, response, now);
      StoreSound(p.store) && p.result.Ok? && p.store.head == s.head + 1
  {
    var m' := m.(status := Delivered, processedAt := Some(now), response := Some(response), lastError := None);
    var e := AuditEntry(now, WasDelivered, Delivered, None);
    assert Actions(trail + [e]) == Actions(trail) + [WasDelivered];
    CloseKeepsStore(s, trail, m', e, Ok(Outcome(m.id, Delivered, Some(response))));
  }

  lemma HeadMessage(s: Store)
    requires StoreSound(s) && s.head < s.tail
    ensures Peek(s) == Ok(s.head + 1) && s.head + 1 in s.messages && s.head + 1 in s.audits
    ensures var m := s.messages[s.head + 1];
      m.id == s.head + 1 && m.status == Queued && MessageSound(m, m.id, s.head) && Actions(s.audits[m.id]) == [Enqueued]
  {
    var id := s.head + 1;
    assert s.head in s.slots;
    assert id in s.messages && Actions(TrailOf(s.audits, id)) == TrailFor(s.messages[id]);
  }

  /** Appending entries one by one is writing the longer trail once. */
  lemma RoutedTrail(s: Store, m: Message, now: nat)
    requires m.id in s.audits && Actions(s.audits[m.id]) == [Enqueued]
    ensures var e := AuditEntry(now, Routed, Queued, None);
      && Route(s, m, now) == s.(audits := s.audits[m.id := s.audits[m.id] + [e]])
      && Actions(s.audits[m.id] + [e]) == [Enqueued, Routed]
    ensures var t := TrailOf(RouteAndCall(s, m, now).audits, m.id);
      && RouteAndCall(s, m, now) == s.(audits := s.audits[m.id := t])
      && Actions(t) == if HasCallback(m) then [Enqueued, Routed, CallbackSucceeded] else [Enqueued, Routed]
  {
    var trail := s.audits[m.id];
    var e, f := AuditEntry(now, Routed, Queued, None), AuditEntry(now, CallbackSucceeded, Queued, None);
    assert Actions(trail + [e]) == Actions(trail) + [Routed];
    assert Actions(trail + [e] + [f]) == Actions(trail + [e]) + [CallbackSucceeded];
    assert s.audits[m.id := trail + [e]][m.id := trail + [e] + [f]] == s.audits[m.id := trail + [e] + [f]];
  }

  lemma NonAtomicKeepsStore(s: Store, target: Option<Bytes>, accepted: bool, now: nat)
    requires StoreSound(s) && s.head < s.tail
    requires s.head + 1 in s.messages && !s.messages[s.head + 1].atomic
    ensures var m := s.messages[s.head + 1]; var p := ProcessNonAtomic(s, m, target, accepted, now);
      && StoreSound(p.store) && p.store.head == s.head + 1
      && (p.result.Ok? <==> Succeeds(m, target, accepted))
      && (p.result.Err? ==> p.result.error in {TargetInvocationFailed, CallbackInvocationFailed})
  {
    HeadMessage(s);
    var m := s.messages[s.head + 1];
    var trail := s.audits[m.id];
    RoutedTrail(s, m, now);
    if target.None? {
      var m' := m.(status := Failed, processedAt := Some(now), lastError := Some(TargetInvocationFailed));
      var e := AuditEntry(now, HasFailed, Failed, Some(TargetInvocationFailed));
      assert s.audits[m.id := trail] == s.audits;
      assert Actions(trail + [e]) == Actions(trail) + [HasFailed];
      CloseKeepsStore(s, trail, m', e, Err(TargetInvocationFailed));
    } else if !Succeeds(m, target, accepted) {
      var m' := m.(status := CallbackFailed, processedAt := Some(now), response := target,
                   lastError := Some(CallbackInvocationFailed));
      var e := AuditEntry(now, CallbackHasFailed, CallbackFailed, Some(CallbackInvocationFailed));
      var t := trail + [AuditEntry(now, Routed, Queued, None)];
      assert Actions(t + [e]) == Actions(t) + [CallbackHasFailed];
      CloseKeepsStore(s, t, m', e, Err(CallbackInvocationFailed));
    } else {
      DeliverKeepsStore(s, TrailOf(RouteAndCall(s, m, now).audits, m.id), m, target.value, now);
    }
  }

  lemma AtomicKeepsStore(s: Store, target: Option<Bytes>, accepted: bool, now: nat)
    requires StoreSound(s) && s.head < s.tail && s.head + 1 in s.messages
    ensures var m := s.messages[s.head + 1]; var p := ProcessAtomic(s, m, target, accepted, now);
      && StoreSound(p.store) && p.store.head == (if p.result.Ok? then s.head + 1 else s.head)
      && (p.result.Ok? <==> Succeeds(m, target, accepted))
      && (p.result.Err? ==> p.store == s && p.result.error in {TargetInvocationFailed, CallbackInvocationFailed})
  {
    HeadMessage(s);
    var m := s.messages[s.head + 1];
    if Succeeds(m, target, accepted) {
      RoutedTrail(s, m, now);
      DeliverKeepsStore(s, TrailOf(RouteAndCall(s, m, now).audits, m.id), m, target.value, now);
    }
  }

  /** Processing keeps the queue, the messages and the trails consistent whether
      the host keeps the writes of a failed call or not; it fails only for an
      empty queue, a failed target or a failed callback; and the head moves on
      exactly after a success, or after a kept failure of a non-atomic message. */
  lemma ProcessKeepsStore(s: Store, target: Option<Bytes>, accepted: bool, now: nat, keep: bool)
    requires StoreSound(s)
    ensures var p := ProcessNext(s, target, accepted, now); var s' := Settled(s, p, keep);
      && StoreSound(s') && s'.tail == s.tail
      && (p.result == Err(QueueEmpty) <==> s.head == s.tail)
      && (p.result.Err? ==> p.result.error in {QueueEmpty, TargetInvocationFailed, CallbackInvocationFailed})
      && s.head <= s'.head <= s.head + 1
      && (s'.head == s.head + 1 <==>
            s.head < s.tail && s.head + 1 in s.messages &&
            (Succeeds(s.messages[s.head + 1], target, accepted) || (keep && !s.messages[s.head + 1].atomic)))
  {
    if s.head < s.tail {
      HeadMessage(s);
      if s.messages[s.head + 1].atomic {
        AtomicKeepsStore(s, target, accepted, now);
      } else {
        NonAtomicKeepsStore(s, target, accepted, now);
      }
    }
  }
}
