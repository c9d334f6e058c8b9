/** Runs of the dynamic-metadata contract. */
module MetadataRuns {
  import opened Host
  import opened Sums
  import opened ImageUri
  import opened MetadataTokens
  import Runs

  const MAX_SCHEMA := 10

  datatype Config = Config(admin: Address, migrator: Address, oracle: Address, self: Address, base: string,
                           schema: u32, paused: bool)

  type Metrics = map<nat, map<string, nat>>

  datatype Rules = Rules(traits: map<nat, TraitRule>, nextTrait: nat, triggers: map<nat, TriggerRule>, nextTrigger: nat)

  datatype World = World(
    config: Config, rules: Rules, nextId: nat, entries: map<nat, Entry>, metrics: Metrics,
    builtWith: map<nat, string>,   // the base each token's URI was last built with
    raised: map<nat, int>,         // per token, all that was added to the score
    lost: map<nat, int>)           // per token, all that metrics were lowered or cut off by

  predicate ValidBase(base: string) {
    1 <= |base| <= MAX_BASE
  }

  predicate ValidSchema(schema: int) {
    1 <= schema <= MAX_SCHEMA
  }

  function Start(config: Config): World {
    World(config.(paused := false), Rules(map[], 1, map[], 1), 1, map[], map[], map[], map[], map[])
  }

  function MetricsOf(metrics: Metrics, id: nat): map<string, nat> {
    if id in metrics then metrics[id] else map[]
  }

  function MetricOf(metrics: Metrics, id: nat, key: string): nat {
    if key in MetricsOf(metrics, id) then MetricsOf(metrics, id)[key] else 0
  }

  function WithMetric(metrics: Metrics, id: nat, key: string, value: nat): Metrics {
    metrics[id := MetricsOf(metrics, id)[key := value]]
  }

  // ---- Calls ----

  function AfterMint(w: World, minter: Address, t: Token, now: nat): Option<World> {
    if w.config.paused || |t.stringTraits| > MAX_TRAITS || |t.numericTraits| > MAX_TRAITS || w.nextId >= U32_MAX
       || !Fits(w.config.base) then None
    else
      var made := t.(id := w.nextId, level := 1, rarity := 1, score := 0, schema := w.config.schema,
                     createdAt := now, updatedAt := now, frozen := false);
      Some(w.(nextId := w.nextId + 1, entries := w.entries[w.nextId := Minted(made, minter, w.config.base, now)],
              builtWith := w.builtWith[w.nextId := w.config.base]))
  }

  function AfterTransfer(w: World, from: Address, to: Address, id: nat, now: nat): Option<World> {
    if w.config.paused || id !in w.entries || w.entries[id].token.owner != from then None
    else Some(w.(entries := w.entries[id := Transferred(w.entries[id], to, now)]))
  }

  function AfterBurn(w: World, caller: Address, id: nat, now: nat): Option<World> {
    if w.config.paused || id !in w.entries || w.entries[id].token.owner != caller
       || w.entries[id].token.frozen then None
    else Some(w.(entries := w.entries[id := Burned(w.entries[id], now)]))
  }

  predicate MayManage(w: World, caller: Address, id: nat) {
    id in w.entries && (w.entries[id].token.owner == caller || caller == w.config.admin)
  }

  predicate MayEdit(w: World, caller: Address, id: nat) {
    !w.config.paused && MayManage(w, caller, id) && !w.entries[id].token.frozen
  }

  function AfterEdit(w: World, caller: Address, id: nat, edit: Edit, now: nat): Option<World> {
    if !MayEdit(w, caller, id) then None
    else match Edited(w.entries[id].token, edit)
      case None => None
      case Some(t) =>
        Some(w.(entries := w.entries[id := Rewritten(w.entries[id], t.(updatedAt := now), caller, ReasonOf(edit),
                                                     now)]))
  }

  function AfterFreeze(w: World, caller: Address, id: nat, on: bool, now: nat): Option<World> {
    if !MayManage(w, caller, id) then None
    else
      var t := w.entries[id].token.(frozen := on, updatedAt := now);
      Some(w.(entries := w.entries[id := Rewritten(w.entries[id], t, caller, if on then "freeze" else "unfreeze",
                                                   now)]))
  }

  function AfterMigrate(w: World, caller: Address, id: nat, schema: u32, p: Migration, now: nat): Option<World> {
    if caller != w.config.migrator || !ValidSchema(schema) || schema < w.config.schema
       || |p.stringTraits| > MAX_TRAITS || |p.numericTraits| > MAX_TRAITS || id !in w.entries then None
    else Some(w.(entries := w.entries[id := Migrated(w.entries[id], p, schema, caller, now)]))
  }

  function AfterEvolve(w: World, caller: Address, id: nat, now: nat): Option<World> {
    if !MayEdit(w, caller, id) then None
    else Some(w.(entries := w.entries[id := Evolved(w.entries[id], w.rules.traits, w.rules.nextTrait, w.config.self,
                                                    now)]))
  }

  function AfterFire(w: World, caller: Address, id: nat, now: nat): Option<World> {
    if !MayEdit(w, caller, id) then None
    else
      var e := AfterTriggers(w.entries[id], w.rules.triggers, w.rules.nextTrigger, MetricsOf(w.metrics, id),
                             w.config.self, now);
      Some(w.(entries := w.entries[id := e]))
  }

  function Scored(e: Entry, delta: nat): Entry {
    e.(token := e.token.(score := SatAdd(e.token.score, delta, U64_MAX)))
  }

  /** The score grows, then the rules look at it. */
  function Measured(e: Entry, delta: nat, rules: Rules, metrics: map<string, nat>, self: Address, now: nat): Entry {
    var evolved := Evolved(Scored(e, delta), rules.traits, rules.nextTrait, self, now);
    AfterTriggers(evolved, rules.triggers, rules.nextTrigger, metrics, self, now)
  }

  /** `value` replaces the metric and `delta` goes to the score; whatever of the
      old value and of `delta` is not in the new value is lost to the metric. */
  function AfterMeasured(w: World, oracle: Address, id: nat, key: string, value: nat, delta: nat, now: nat)
      : Option<World> {
    if w.config.paused || oracle != w.config.oracle || id !in w.entries then None
    else
      var metrics := WithMetric(w.metrics, id, key, value);
      var e := Measured(w.entries[id], delta, w.rules, MetricsOf(metrics, id), w.config.self, now);
      Some(w.(metrics := metrics, entries := w.entries[id := e],
              raised := w.raised[id := Get(w.raised, id) + delta],
              lost := w.lost[id := Get(w.lost, id) + MetricOf(w.metrics, id, key) + delta - value]))
  }

  /** A metric replaced: only an increase reaches the score. */
  function AfterSetMetric(w: World, oracle: Address, id: nat, key: string, value: nat, now: nat): Option<World> {
    var was := MetricOf(w.metrics, id, key);
    AfterMeasured(w, oracle, id, key, value, if value < was then 0 else value - was, now)
  }

  function AfterAddMetric(w: World, oracle: Address, id: nat, key: string, delta: nat, now: nat): Option<World> {
    AfterMeasured(w, oracle, id, key, SatAdd(MetricOf(w.metrics, id, key), delta, U64_MAX), delta, now)
  }

  /** What a build with the current base gives. */
  function FreshUri(w: World, t: Token): string {
    Uri(w.config.base, t.id, t.level, t.rarity)
  }

  /** Reading the URI caches it. */
  function AfterGetUri(w: World, id: nat): Option<World> {
    if id !in w.entries then None
    else
      var e := w.entries[id];
      if e.uri.Some? then Some(w)
      else if !Fits(w.config.base) then None
      else Some(w.(entries := w.entries[id := e.(uri := Some(FreshUri(w, e.token)))],
                   builtWith := w.builtWith[id := w.config.base]))
  }

  function AfterSetBase(w: World, caller: Address, base: string): Option<World> {
    if caller != w.config.admin || !ValidBase(base) then None
    else Some(w.(config := w.config.(base := base)))
  }

  function AfterSetSchema(w: World, caller: Address, schema: u32): Option<World> {
    if caller != w.config.admin || !ValidSchema(schema) || schema < w.config.schema then None
    else Some(w.(config := w.config.(schema := schema)))
  }

  function AfterSetPaused(w: World, caller: Address, paused: bool): Option<World> {
    if caller != w.config.admin then None else Some(w.(config := w.config.(paused := paused)))
  }

  function AfterAddTraitRule(w: World, caller: Address, rule: TraitRule): Option<World> {
    if caller != w.config.admin || w.rules.nextTrait >= U64_MAX then None
    else Some(w.(rules := w.rules.(traits := w.rules.traits[w.rules.nextTrait := rule],
                                   nextTrait := w.rules.nextTrait + 1)))
  }

  function AfterRemoveTraitRule(w: World, caller: Address, id: nat): Option<World> {
    if caller != w.config.admin || id !in w.rules.traits then None
    else Some(w.(rules := w.rules.(traits := w.rules.traits - {id})))
  }

  function AfterAddTriggerRule(w: World, caller: Address, trigger: string, metric: string, threshold: nat,
                               effect: string, param: string, text: string): Option<World> {
    if caller != w.config.admin || TriggerOf(trigger).None? || EffectOf(effect).None?
       || w.rules.nextTrigger >= U64_MAX then None
    else
      var rule := TriggerRule(TriggerOf(trigger).value, metric, threshold, EffectOf(effect).value, param, text);
      Some(w.(rules := w.rules.(triggers := w.rules.triggers[w.rules.nextTrigger := rule],
                                nextTrigger := w.rules.nextTrigger + 1)))
  }

  function AfterRemoveTriggerRule(w: World, caller: Address, id: nat): Option<World> {
    if caller != w.config.admin || id !in w.rules.triggers then None
    else Some(w.(rules := w.rules.(triggers := w.rules.triggers - {id})))
  }

  datatype Call =
    | MintToken(minter: Address, t: Token, now: nat)
    | TransferToken(from: Address, to: Address, id: nat, now: nat)
    | BurnToken(caller: Address, id: nat, now: nat)
    | EditToken(caller: Address, id: nat, edit: Edit, now: nat)
    | Freeze(caller: Address, id: nat, on: bool, now: nat)
    | Migrate(caller: Address, id: nat, schema: u32, p: Migration, now: nat)
    | Evolve(caller: Address, id: nat, now: nat)
    | Fire(caller: Address, id: nat, now: nat)
    | SetMetric(caller: Address, id: nat, key: string, value: nat, now: nat)
    | AddMetric(caller: Address, id: nat, key: string, value: nat, now: nat)
    | GetUri(id: nat)
    | SetBase(caller: Address, base: string)
    | SetSchema(caller: Address, schema: u32)
    | SetPaused(caller: Address, paused: bool)
    | AddTraitRule(caller: Address, rule: TraitRule)
    | RemoveTraitRule(caller: Address, id: nat)
    | AddTriggerRule(caller: Address, trigger: string, metric: string, threshold: nat, effect: string, param: string,
                     text: string)
    | RemoveTriggerRule(caller: Address, id: nat)

  function Next(w: World, c: Call): Option<World> {
    match c
    case MintToken(minter, t, now) => AfterMint(w, minter, t, now)
    case TransferToken(from, to, id, now) => AfterTransfer(w, from, to, id, now)
    case BurnToken(caller, id, now) => AfterBurn(w, caller, id, now)
    case EditToken(caller, id, edit, now) => AfterEdit(w, caller, id, edit, now)
    case Freeze(caller, id, on, now) => AfterFreeze(w, caller, id, on, now)
    case Migrate(caller, id, schema, p, now) => AfterMigrate(w, caller, id, schema, p, now)
    case Evolve(caller, id, now) => AfterEvolve(w, caller, id, now)
    case Fire(caller, id, now) => AfterFire(w, caller, id, now)
    case SetMetric(caller, id, key, value, now) => AfterSetMetric(w, caller, id, key, value, now)
    case AddMetric(caller, id, key, value, now) => AfterAddMetric(w, caller, id, key, value, now)
    case GetUri(id) => AfterGetUri(w, id)
    case SetBase(caller, base) => AfterSetBase(w, caller, base)
    case SetSchema(caller, schema) => AfterSetSchema(w, caller, schema)
    case SetPaused(caller, paused) => AfterSetPaused(w, caller, paused)
    case AddTraitRule(caller, rule) => AfterAddTraitRule(w, caller, rule)
    case RemoveTraitRule(caller, id) => AfterRemoveTraitRule(w, caller, id)
    case AddTriggerRule(caller, trigger, metric, threshold, effect, param, text) =>
      AfterAddTriggerRule(w, caller, trigger, metric, threshold, effect, param, text)
    case RemoveTriggerRule(caller, id) => AfterRemoveTriggerRule(w, caller, id)
  }

  function Step(w: World, c: Call): World {
    match Next(w, c) case Some(w') => w' case None => w
  }

  predicate MayInitialize(config: Config) {
    ValidBase(config.base) && ValidSchema(config.schema)
  }

  ghost predicate Reachable(w: World) {
    exists config :: MayInitialize(config) && Runs.ReachableFrom(Step, Start(config), w)
  }

  lemma NextIsReachable(w: World, c: Call)
    requires Reachable(w) && Next(w, c).Some?
    ensures Reachable(Next(w, c).value)
  {
    var config :| MayInitialize(config) && Runs.ReachableFrom(Step, Start(config), w);
    Runs.ReachableNext(Step, Start(config), w, c);
  }

  lemma StartIsReachable(config: Config)
    requires MayInitialize(config)
    ensures Reachable(Start(config))
  {
    Runs.ReachableNow(Step, Start(config));
  }

  // ---- Calls about one existing token ----

  predicate IsTokenCall(c: Call) {
    || c.TransferToken? || c.BurnToken? || c.EditToken? || c.Freeze? || c.Migrate? || c.Evolve? || c.Fire?
    || c.SetMetric? || c.AddMetric? || c.GetUri?
  }

  function DeltaOf(w: World, c: Call): nat
    requires c.SetMetric? || c.AddMetric?
  {
    if c.AddMetric? then c.value
    else if c.value < MetricOf(w.metrics, c.id, c.key) then 0
    else c.value - MetricOf(w.metrics, c.id, c.key)
  }

  function NewMetric(w: World, c: Call): nat
    requires c.SetMetric? || c.AddMetric?
  {
    if c.SetMetric? then c.value else SatAdd(MetricOf(w.metrics, c.id, c.key), c.value, U64_MAX)
  }

  function MeasuredBy(w: World, c: Call): Entry
    requires (c.SetMetric? || c.AddMetric?) && c.id in w.entries
  {
    var metrics := WithMetric(w.metrics, c.id, c.key, NewMetric(w, c));
    Measured(w.entries[c.id], DeltaOf(w, c), w.rules, MetricsOf(metrics, c.id), w.config.self, c.now)
  }

  /** What a successful call makes of its token's records. */
  function EntryAfter(w: World, c: Call): Entry
    requires IsTokenCall(c) && c.id in w.entries
  {
    var e := w.entries[c.id];
    match c
    case TransferToken(_, to, _, now) => Transferred(e, to, now)
    case BurnToken(_, _, now) => Burned(e, now)
    case EditToken(caller, _, edit, now) =>
      (match Edited(e.token, edit)
       case None => e
       case Some(t) => Rewritten(e, t.(updatedAt := now), caller, ReasonOf(edit), now))
    case Freeze(caller, _, on, now) =>
      Rewritten(e, e.token.(frozen := on, updatedAt := now), caller, if on then "freeze" else "unfreeze", now)
    case Migrate(caller, _, schema, p, now) => Migrated(e, p, schema, caller, now)
    case Evolve(_, _, now) => Evolved(e, w.rules.traits, w.rules.nextTrait, w.config.self, now)
    case Fire(_, id, now) =>
      AfterTriggers(e, w.rules.triggers, w.rules.nextTrigger, MetricsOf(w.metrics, id), w.config.self, now)
    case GetUri(_) => if e.uri.Some? then e else e.(uri := Some(FreshUri(w, e.token)))
    case SetMetric(_, _, _, _, _) => MeasuredBy(w, c)
    case AddMetric(_, _, _, _, _) => MeasuredBy(w, c)
  }

  /** The base its cached URI was built with. */
  function BaseOf(w: World, id: nat): string {
    if id in w.builtWith then w.builtWith[id] else ""
  }

  /** The same after a call about the token. */
  function BaseAfter(w: World, c: Call): string
    requires IsTokenCall(c) && c.id in w.entries
  {
    if c.GetUri? && w.entries[c.id].uri.None? then w.config.base else BaseOf(w, c.id)
  }

  /** A call about a token changes no other token and no settings. */
  ghost predicate TouchesOne(w: World, c: Call, w': World)
    requires IsTokenCall(c)
  {
    && c.id in w.entries && w'.entries == w.entries[c.id := EntryAfter(w, c)]
    && w'.config == w.config && w'.rules == w.rules && w'.nextId == w.nextId
    && BaseOf(w', c.id) == BaseAfter(w, c) && forall id :: id != c.id ==> BaseOf(w', id) == BaseOf(w, id)
  }

  lemma OwnerCallTouchesOne(w: World, c: Call)
    requires (c.TransferToken? || c.BurnToken? || c.EditToken? || c.Freeze? || c.Migrate?) && Next(w, c).Some?
    ensures TouchesOne(w, c, Next(w, c).value)
  {
  }

  lemma RuleCallTouchesOne(w: World, c: Call)
    requires (c.Evolve? || c.Fire?) && Next(w, c).Some?
    ensures TouchesOne(w, c, Next(w, c).value)
  {
  }

  lemma MetricCallTouchesOne(w: World, c: Call)
    requires (c.SetMetric? || c.AddMetric?) && Next(w, c).Some?
    ensures TouchesOne(w, c, Next(w, c).value)
  {
  }

  lemma ReadingTouchesOne(w: World, c: Call)
    requires c.GetUri? && Next(w, c).Some?
    ensures TouchesOne(w, c, Next(w, c).value)
  {
    if w.entries[c.id].uri.Some? {
      assert w.entries == w.entries[c.id := w.entries[c.id]];
    }
  }

  lemma TokenCallTouchesOne(w: World, c: Call)
    requires IsTokenCall(c) && Next(w, c).Some?
    ensures TouchesOne(w, c, Next(w, c).value)
  {
    if c.Evolve? || c.Fire? {
      RuleCallTouchesOne(w, c);
    } else if c.SetMetric? || c.AddMetric? {
      MetricCallTouchesOne(w, c);
    } else if c.GetUri? {
      ReadingTouchesOne(w, c);
    } else {
      OwnerCallTouchesOne(w, c);
    }
  }

  lemma OtherCallsKeepTokens(w: World, c: Call)
    requires !IsTokenCall(c) && !c.MintToken? && Next(w, c).Some?
    ensures var w' := Next(w, c).value;
      && w'.entries == w.entries && w'.nextId == w.nextId && w'.builtWith == w.builtWith
      && w'.metrics == w.metrics && w'.raised == w.raised && w'.lost == w.lost
  {
  }

  // ---- The invariant ----

  ghost predicate Sound(w: World) {
    && ValidBase(w.config.base) && ValidSchema(w.config.schema)
    && 1 <= w.nextId <= U32_MAX
    && (forall id :: id in w.entries ==> id < w.nextId && EntrySound(w.entries[id], id, BaseOf(w, id)))
  }

  lemma MeasuredSound(e: Entry, delta: nat, rules: Rules, metrics: map<string, nat>, self: Address, now: nat,
                      id: nat, base: string)
    requires EntrySound(e, id, base)
    ensures EntrySound(Measured(e, delta, rules, metrics, self, now), id, base)
  {
    ScoredSound(e, SatAdd(e.token.score, delta, U64_MAX), id, base);
    EvolvedSound(Scored(e, delta), rules.traits, rules.nextTrait, self, now, id, base);
    TriggersSound(Evolved(Scored(e, delta), rules.traits, rules.nextTrait, self, now), rules.triggers,
                  rules.nextTrigger,
                  metrics, self, now, id, base);
  }

  lemma MeasuredBySound(w: World, c: Call)
    requires (c.SetMetric? || c.AddMetric?) && c.id in w.entries && EntrySound(w.entries[c.id], c.id, BaseOf(w, c.id))
    ensures EntrySound(MeasuredBy(w, c), c.id, BaseOf(w, c.id))
  {
    var metrics := WithMetric(w.metrics, c.id, c.key, NewMetric(w, c));
    MeasuredSound(w.entries[c.id], DeltaOf(w, c), w.rules, MetricsOf(metrics, c.id), w.config.self, c.now,
                  c.id, BaseOf(w, c.id));
  }

  lemma EditSound(e: Entry, caller: Address, edit: Edit, now: nat, id: nat, base: string)
    requires EntrySound(e, id, base)
    ensures Edited(e.token, edit).Some? ==>
      EntrySound(Rewritten(e, Edited(e.token, edit).value.(updatedAt := now), caller, ReasonOf(edit), now), id, base)
  {
    if t :| Edited(e.token, edit) == Some(t) {
      RewrittenSound(e, t.(updatedAt := now), caller, ReasonOf(edit), now, id, base);
    }
  }

  lemma RulesSound(w: World, c: Call)
    requires (c.Evolve? || c.Fire?) && c.id in w.entries && EntrySound(w.entries[c.id], c.id, BaseOf(w, c.id))
    ensures EntrySound(EntryAfter(w, c), c.id, BaseOf(w, c.id))
  {
    var e, base := w.entries[c.id], BaseOf(w, c.id);
    EvolvedSound(e, w.rules.traits, w.rules.nextTrait, w.config.self, c.now, c.id, base);
    var metrics := MetricsOf(w.metrics, c.id);
    TriggersSound(e, w.rules.triggers, w.rules.nextTrigger, metrics, w.config.self, c.now, c.id, base);
  }

  lemma OwnerCallSound(w: World, c: Call)
    requires (c.TransferToken? || c.BurnToken? || c.EditToken? || c.Freeze? || c.Migrate?) && c.id in w.entries
    requires EntrySound(w.entries[c.id], c.id, BaseOf(w, c.id))
    ensures EntrySound(EntryAfter(w, c), c.id, BaseOf(w, c.id))
  {
    var e, base := w.entries[c.id], BaseOf(w, c.id);
    match c
    case TransferToken(_, to, id, now) => TransferredSound(e, to, now, id, base);
    case BurnToken(_, id, now) => TransferredSound(e, e.token.owner, now, id, base);
    case EditToken(caller, id, edit, now) => EditSound(e, caller, edit, now, id, base);
    case Freeze(caller, id, on, now) =>
      RewrittenSound(e, e.token.(frozen := on, updatedAt := now), caller, if on then "freeze" else "unfreeze", now, id,
                     base);
    case Migrate(caller, id, schema, p, now) => MigratedSound(e, p, schema, caller, now, id, base);
  }

  lemma ReadingSound(w: World, c: Call)
    requires c.GetUri? && c.id in w.entries && EntrySound(w.entries[c.id], c.id, BaseOf(w, c.id))
    ensures EntrySound(EntryAfter(w, c), c.id, BaseAfter(w, c))
  {
  }

  lemma EntryAfterSound(w: World, c: Call)
    requires IsTokenCall(c) && c.id in w.entries && EntrySound(w.entries[c.id], c.id, BaseOf(w, c.id))
    ensures EntrySound(EntryAfter(w, c), c.id, BaseAfter(w, c))
  {
    if c.GetUri? {
      ReadingSound(w, c);
    } else if c.Evolve? || c.Fire? {
      RulesSound(w, c);
    } else if c.SetMetric? || c.AddMetric? {
      MeasuredBySound(w, c);
    } else {
      OwnerCallSound(w, c);
    }
  }

  lemma MintKeepsSound(w: World, minter: Address, t: Token, now: nat)
    requires Sound(w) && AfterMint(w, minter, t, now).Some?
    ensures Sound(AfterMint(w, minter, t, now).value)
  {
    var w' := AfterMint(w, minter, t, now).value;
    MintedSound(w'.entries[w.nextId].token, minter, w.config.base, now);
    assert forall id :: id != w.nextId ==> BaseOf(w', id) == BaseOf(w, id);
  }

  lemma OtherCallsKeepSound(w: World, c: Call)
    requires Sound(w) && !IsTokenCall(c) && !c.MintToken? && Next(w, c).Some?
    ensures Sound(Next(w, c).value)
  {
    OtherCallsKeepTokens(w, c);
    assert forall id :: BaseOf(Next(w, c).value, id) == BaseOf(w, id);
  }

  lemma TokenCallKeepsSound(w: World, c: Call)
    requires Sound(w) && IsTokenCall(c) && Next(w, c).Some?
    ensures Sound(Next(w, c).value)
  {
    TokenCallTouchesOne(w, c);
    TouchedKeepsSound(w, c, Next(w, c).value);
  }

  lemma TouchedKeepsSound(w: World, c: Call, w': World)
    requires Sound(w) && IsTokenCall(c) && TouchesOne(w, c, w')
    ensures Sound(w')
  {
    EntryAfterSound(w, c);
    ReplacedEntrySound(w, w', c.id, EntryAfter(w, c));
  }

  lemma ReplacedEntrySound(w: World, w': World, id: nat, e: Entry)
    requires Sound(w) && id in w.entries && EntrySound(e, id, BaseOf(w', id)) && w'.entries == w.entries[id := e]
    requires w'.config == w.config && w'.nextId == w.nextId && forall k :: k != id ==> BaseOf(w', k) == BaseOf(w, k)
    ensures Sound(w')
  {
  }

  lemma StepKeepsSound(w: World, c: Call)
    requires Sound(w)
    ensures Sound(Step(w, c))
  {
    if Next(w, c).Some? {
      if IsTokenCall(c) {
        TokenCallKeepsSound(w, c);
      } else if c.MintToken? {
        MintKeepsSound(w, c.minter, c.t, c.now);
      } else {
        OtherCallsKeepSound(w, c);
      }
    }
  }

  lemma ReachableIsSound(w: World)
    requires Reachable(w)
    ensures Sound(w)
  {
    var config :| MayInitialize(config) && Runs.ReachableFrom(Step, Start(config), w);
    forall v, c | Sound(v) ensures Sound(Step(v, c)) {
      StepKeepsSound(v, c);
    }
    Runs.ReachableKeeps(Step, Sound, Start(config), w);
  }
}
