/** The dynamic-metadata contract: storage updated in place, proved against the
    state machine of MetadataRuns. */
module DynamicMetadata {
  import opened Host
  import opened Decimals
  import opened ImageUri
  import opened MetadataTokens
  import opened MetadataRuns
  import opened MetadataLaws

  /** Documented to count distinct owners, which it does exactly if nobody received
      the token twice. */
  method CountOwners(owners: seq<OwnerRecord>) returns (count: nat)
    ensures count == OwnerEvents(owners) >= |OwnersSeen(owners)|
    ensures count == |OwnersSeen(owners)| <==> NobodyReturns(owners)
  {
    OwnerEventsIff(owners);
    count := 0;
    for i := 0 to |owners|
      invariant count == OwnerEvents(owners[..i])
    {
      assert owners[..i + 1][..i] == owners[..i];
      if owners[i].event != Burn {
        count := count + 1;
      }
    }
    assert owners[..|owners|] == owners;
  }

  /** The rule with the highest threshold among those that apply. */
  method FindBest(rules: map<nat, TraitRule>, n: nat, t: Token) returns (best: Option<TraitRule>)
    ensures best == BestRule(rules, n, t)
  {
    best := None;
    for id := 0 to n
      invariant best == BestRule(rules, id, t)
    {
      if id in rules && t.score >= rules[id].threshold && t.level >= rules[id].level {
        if best.None? || rules[id].threshold > best.value.threshold {
          best := Some(rules[id]);
        }
      }
    }
  }

  /** Applies the firing rules in the order of their ids. */
  method FireAll(token: Token, rules: map<nat, TriggerRule>, n: nat, metrics: map<string, nat>,
                 owners: seq<OwnerRecord>, now: nat) returns (t: Token, applied: nat)
    ensures (t, applied) == Triggered(token, rules, n, Facts(metrics, owners, now))
  {
    t, applied := token, 0;
    var count := CountOwners(owners);
    for id := 0 to n
      invariant (t, applied) == Triggered(token, rules, id, Facts(metrics, owners, now))
    {
      var fired := false;
      if id in rules {
        match rules[id].trigger {
          case OnMetric =>
            fired := (if rules[id].metric in metrics then metrics[rules[id].metric] else 0) >= rules[id].threshold;
          case OnOwnerCount => fired := count >= rules[id].threshold;
          case OnTime => fired := (if now < t.updatedAt then 0 else now - t.updatedAt) >= rules[id].threshold;
        }
      }
      if fired {
        var rule := rules[id];
        match rule.effect {
          case AddTrait =>
            t := t.(stringTraits := t.stringTraits[rule.param := rule.text]);
          case AddNumericTrait =>
            var parsed := ParseU32(rule.text);
            t := t.(numericTraits := t.numericTraits[rule.param := parsed]);
          case BumpLevel =>
            var bump := ParseU32(rule.text);
            t := t.(level := SatAdd(t.level, bump, U32_MAX));
        }
        applied := applied + 1;
      }
    }
  }

  method Initialize(config: Config) returns (c: DynamicMetadata?)
    ensures c == null <==> !MayInitialize(config)
    ensures c != null ==> fresh(c) && c.Valid() && c.world == Start(config)
  {
    if !ValidSchema(config.schema) || config.base == "" || |config.base| > MAX_BASE {
      return null;
    }
    c := new DynamicMetadata(config);
  }

  class DynamicMetadata {
    var config: Config
    var rules: Rules
    var nextId: nat
    var entries: map<nat, Entry>
    var metrics: Metrics
    ghost var world: World

    ghost predicate Valid()
      reads this
    {
      && Reachable(world)
      && config == world.config && rules == world.rules && nextId == world.nextId
      && entries == world.entries && metrics == world.metrics
    }

    constructor (config: Config)
      requires MayInitialize(config)
      ensures Valid() && world == Start(config)
    {
      this.config, rules := config.(paused := false), Rules(map[], 1, map[], 1);
      nextId, entries, metrics := 1, map[], map[];
      world := Start(config);
      new;
      StartIsReachable(config);
    }

    // ---- Writing one token's records ----

    method WriteMetadata(id: nat, t: Token)
      requires id in entries
      modifies this`entries
      ensures entries == old(entries)[id := old(entries)[id].(token := t, uri := None)]
    {
      entries := entries[id := entries[id].(token := t, uri := None)];
    }

    method SnapshotVersion(id: nat, t: Token, author: Address, reason: string, now: nat)
      requires id in entries
      modifies this`entries
      ensures var e := old(entries)[id];
        entries == old(entries)[id := e.(versions := Snapshot(e.versions, t, author, reason, now))]
    {
      var e := entries[id];
      entries := entries[id := e.(versions := e.versions + [Version(|e.versions| + 1, t, author, reason, now)])];
    }

    method Rewrite(id: nat, t: Token, author: Address, reason: string, now: nat)
      requires id in entries
      modifies this`entries
      ensures entries == old(entries)[id := Rewritten(old(entries)[id], t, author, reason, now)]
    {
      WriteMetadata(id, t);
      SnapshotVersion(id, t, author, reason, now);
    }

    // ---- Tokens ----

    method MintToken(minter: Address, t: Token, now: u64) returns (id: Option<nat>)
      requires Valid()
      modifies this
      ensures Valid() && Commits(old(world), AfterMint(old(world), minter, t, now), world, id.Some?)
      ensures id.Some? ==> id.value == old(nextId)
    {
      if config.paused || |t.stringTraits| > MAX_TRAITS || |t.numericTraits| > MAX_TRAITS || nextId >= U32_MAX {
        return None;
      }
      var made := t.(id := nextId, level := 1, rarity := 1, score := 0, schema := config.schema,
                     createdAt := now, updatedAt := now, frozen := false);
      var uri := BuildUri(config.base, nextId, 1, 1);
      if uri.None? {
        return None;
      }
      ghost var next := AfterMint(world, minter, t, now);
      assert Reachable(next.value) by { NextIsReachable(world, Call.MintToken(minter, t, now)); }
      entries := entries[nextId := Entry(made, [OwnerRecord(made.owner, Mint, now, minter)],
                                         [Version(1, made, minter, "mint", now)], uri)];
      assert Snapshot([], made, minter, "mint", now) == [Version(1, made, minter, "mint", now)];
      id := Some(nextId);
      nextId := nextId + 1;
      world := next.value;
    }

    method TransferToken(from: Address, to: Address, id: nat, now: u64) returns (ok: bool)
      requires Valid()
      modifies this
      ensures Valid() && Commits(old(world), AfterTransfer(old(world), from, to, id, now), world, ok)
    {
      ok := !config.paused && id in entries && entries[id].token.owner == from;
      if ok {
        NextIsReachable(world, Call.TransferToken(from, to, id, now));
        world := AfterTransfer(world, from, to, id, now).value;
        var e := entries[id];
        var t := e.token.(owner := to, updatedAt := now);
        entries := entries[id := e.(token := t, owners := e.owners + [OwnerRecord(to, Transfer, now, from)])];
        SnapshotVersion(id, t, from, "transfer", now);
      }
    }

    method BurnToken(caller: Address, id: nat, now: u64) returns (ok: bool)
      requires Valid()
      modifies this
      ensures Valid() && Commits(old(world), AfterBurn(old(world), caller, id, now), world, ok)
    {
      ok := !config.paused && id in entries && entries[id].token.owner == caller && !entries[id].token.frozen;
      if ok {
        NextIsReachable(world, Call.BurnToken(caller, id, now));
        world := AfterBurn(world, caller, id, now).value;
        var e := entries[id];
        entries := entries[id := e.(owners := e.owners + [OwnerRecord(caller, Burn, now, caller)])];
        var t := e.token.(updatedAt := now);
        SnapshotVersion(id, t, caller, "burn", now);
        entries := entries[id := entries[id].(token := t)];
      }
    }

    method IsBurnedToken(id: nat) returns (burned: bool)
      requires Valid()
      ensures burned <==> id in entries && IsBurned(entries[id].owners)
    {
      burned := id in entries && |entries[id].owners| > 0 && entries[id].owners[|entries[id].owners| - 1].event == Burn;
    }

    method ManagedBy(caller: Address, id: nat) returns (ok: bool)
      requires Valid()
      ensures ok == MayManage(world, caller, id)
    {
      ok := id in entries && (entries[id].token.owner == caller || caller == config.admin);
    }

    // ---- Edits ----

    method EditToken(caller: Address, id: nat, edit: Edit, now: u64) returns (ok: bool)
      requires Valid()
      modifies this
      ensures Valid() && Commits(old(world), AfterEdit(old(world), caller, id, edit, now), world, ok)
    {
      var managed := ManagedBy(caller, id);
      if config.paused || !managed || entries[id].token.frozen {
        return false;
      }
      if Edited(entries[id].token, edit).None? {
        return false;
      }
      ghost var next := AfterEdit(world, caller, id, edit, now);
      assert Reachable(next.value) by { NextIsReachable(world, Call.EditToken(caller, id, edit, now)); }
      Rewrite(id, Edited(entries[id].token, edit).value.(updatedAt := now), caller, ReasonOf(edit), now);
      world := next.value;
      ok := true;
    }

    /** Returns the new version number. */
    method UpdateMetadata(caller: Address, id: nat, name: string, description: string, imageId: u32,
                          externalUri: string, now: u64)
        returns (version: Option<nat>)
      requires Valid()
      modifies this
      ensures Valid()
      ensures var edit := Fields(name, description, imageId, externalUri);
        Commits(old(world), AfterEdit(old(world), caller, id, edit, now), world, version.Some?)
      ensures version.Some? ==> id in entries && version.value == |entries[id].versions|
    {
      var ok := EditToken(caller, id, Fields(name, description, imageId, externalUri), now);
      version := if ok then Some(|entries[id].versions|) else None;
    }

    method AddStringTrait(caller: Address, id: nat, key: string, text: string, now: u64) returns (ok: bool)
      requires Valid()
      modifies this
      ensures Valid() && Commits(old(world), AfterEdit(old(world), caller, id, SetString(key, text), now), world, ok)
    {
      ok := EditToken(caller, id, SetString(key, text), now);
    }

    method RemoveStringTrait(caller: Address, id: nat, key: string, now: u64) returns (ok: bool)
      requires Valid()
      modifies this
      ensures Valid() && Commits(old(world), AfterEdit(old(world), caller, id, DropString(key), now), world, ok)
    {
      ok := EditToken(caller, id, DropString(key), now);
    }

    method AddNumericTrait(caller: Address, id: nat, key: string, number: u32, now: u64) returns (ok: bool)
      requires Valid()
      modifies this
      ensures Valid() && Commits(old(world), AfterEdit(old(world), caller, id, SetNumeric(key, number), now), world, ok)
    {
      ok := EditToken(caller, id, SetNumeric(key, number), now);
    }

    method IncrementNumericTrait(caller: Address, id: nat, key: string, delta: u32, now: u64)
        returns (value: Option<nat>)
      requires Valid()
      modifies this
      ensures Valid()
      ensures Commits(old(world), AfterEdit(old(world), caller, id, AddNumeric(key, delta), now), world, value.Some?)
      ensures value.Some? ==> id in entries && value.value == Numeric(entries[id].token, key)
    {
      var ok := EditToken(caller, id, AddNumeric(key, delta), now);
      value := if ok then Some(Numeric(entries[id].token, key)) else None;
    }

    method SetFrozen(caller: Address, id: nat, on: bool, now: u64) returns (ok: bool)
      requires Valid()
      modifies this
      ensures Valid() && Commits(old(world), AfterFreeze(old(world), caller, id, on, now), world, ok)
    {
      ok := ManagedBy(caller, id);
      if ok {
        NextIsReachable(world, Call.Freeze(caller, id, on, now));
        world := AfterFreeze(world, caller, id, on, now).value;
        Rewrite(id, entries[id].token.(frozen := on, updatedAt := now), caller, if on then "freeze" else "unfreeze",
                now);
      }
    }

    // ---- Rules and metrics ----

    /** Returns how many rules were applied: the best one or none. */
    method ApplyTraitEvolution(id: nat, now: nat) returns (applied: nat)
      requires id in entries
      modifies this`entries
      ensures entries == old(entries)[id := Evolved(old(entries)[id], rules.traits, rules.nextTrait, config.self, now)]
      ensures var t := old(entries)[id].token;
        applied == if t.frozen || BestRule(rules.traits, rules.nextTrait, t).None? then 0 else 1
    {
      var t := entries[id].token;
      var best := FindBest(rules.traits, rules.nextTrait, t);
      if t.frozen || best.None? {
        return 0;
      }
      var r := best.value;
      t := t.(stringTraits := t.stringTraits[r.traitName := r.traitValue]);
      if r.rarity > t.rarity {
        t := t.(rarity := r.rarity);
      }
      if r.level > t.level {
        t := t.(level := r.level);
      }
      Rewrite(id, t.(updatedAt := now), config.self, "evolve_traits", now);
      applied := 1;
    }

    /** Returns how many rules fired. */
    method ApplyTriggerRules(id: nat, now: nat) returns (applied: nat)
      requires id in entries
      modifies this`entries
      ensures entries == old(entries)[id := AfterTriggers(old(entries)[id], rules.triggers, rules.nextTrigger,
                                                           MetricsOf(metrics, id), config.self, now)]
      ensures var e := old(entries)[id];
        applied == if e.token.frozen then 0
                   else |set k: nat | k < rules.nextTrigger && k in rules.triggers
                           && Reaches(rules.triggers[k], MetricsOf(metrics, id), e.owners, e.token.updatedAt, now)|
    {
      var e := entries[id];
      if e.token.frozen {
        return 0;
      }
      var t;
      t, applied := FireAll(e.token, rules.triggers, rules.nextTrigger, MetricsOf(metrics, id), e.owners, now);
      TriggersCountReached(e.token, rules.triggers, rules.nextTrigger, MetricsOf(metrics, id), e.owners, now);
      if applied > 0 {
        Rewrite(id, t.(updatedAt := now), config.self, "trigger_apply", now);
      }
    }

    /** Returns the number of rules applied, which is 1 exactly if any is eligible. */
    method EvolveTraits(caller: Address, id: nat, now: u64) returns (applied: Option<nat>)
      requires Valid()
      modifies this
      ensures Valid() && Commits(old(world), AfterEvolve(old(world), caller, id, now), world, applied.Some?)
      ensures applied.Some? ==> applied.value <= 1 && id in old(entries)
      ensures applied.Some? ==>
        (applied.value == 1 <==> exists k :: 0 <= k < rules.nextTrait && k in rules.traits
                                          && rules.traits[k].threshold <= old(entries)[id].token.score
                                          && rules.traits[k].level <= old(entries)[id].token.level)
    {
      var managed := ManagedBy(caller, id);
      if config.paused || !managed || entries[id].token.frozen {
        return None;
      }
      ghost var next := AfterEvolve(world, caller, id, now);
      assert Reachable(next.value) by { NextIsReachable(world, Call.Evolve(caller, id, now)); }
      NoBestRule(rules.traits, rules.nextTrait, entries[id].token);
      var count := ApplyTraitEvolution(id, now);
      world := next.value;
      applied := Some(count);
    }

    /** Returns the number of rules applied: all that fire on the token as it was. */
    method CheckAndApplyTriggers(caller: Address, id: nat, now: u64) returns (applied: Option<nat>)
      requires Valid()
      modifies this
      ensures Valid() && Commits(old(world), AfterFire(old(world), caller, id, now), world, applied.Some?)
      ensures applied.Some? ==>
        && id in old(entries)
        && var e := old(entries)[id];
           applied.value == |set k: nat | k < rules.nextTrigger && k in rules.triggers
                                && Reaches(rules.triggers[k], MetricsOf(metrics, id), e.owners, e.token.updatedAt, now)|
    {
      var managed := ManagedBy(caller, id);
      if config.paused || !managed || entries[id].token.frozen {
        return None;
      }
      ghost var next := AfterFire(world, caller, id, now);
      assert Reachable(next.value) by { NextIsReachable(world, Call.Fire(caller, id, now)); }
      var count := ApplyTriggerRules(id, now);
      world := next.value;
      applied := Some(count);
    }

    /** Stores a metric, adds to the score, and lets both kinds of rules look. */
    method Measure(id: nat, key: string, value: nat, delta: nat, now: nat)
      requires id in entries
      modifies this`entries, this`metrics
      ensures metrics == WithMetric(old(metrics), id, key, value)
      ensures entries == old(entries)[id := Measured(old(entries)[id], delta, rules, MetricsOf(metrics, id),
                                                     config.self, now)]
    {
      metrics := metrics[id := MetricsOf(metrics, id)[key := value]];
      var t := entries[id].token;
      entries := entries[id := entries[id].(token := t.(score := SatAdd(t.score, delta, U64_MAX)))];
      var _ := ApplyTraitEvolution(id, now);
      var _ := ApplyTriggerRules(id, now);
    }

    method SetPerformanceMetric(oracle: Address, id: nat, key: string, value: u64, now: u64) returns (ok: bool)
      requires Valid()
      modifies this
      ensures Valid() && Commits(old(world), AfterSetMetric(old(world), oracle, id, key, value, now), world, ok)
    {
      ok := !config.paused && oracle == config.oracle && id in entries;
      if ok {
        ghost var next := AfterSetMetric(world, oracle, id, key, value, now);
        assert Reachable(next.value) by { NextIsReachable(world, Call.SetMetric(oracle, id, key, value, now)); }
        var was := MetricOf(metrics, id, key);
        Measure(id, key, value, if value < was then 0 else value - was, now);
        world := next.value;
      }
    }

    method AddPerformanceMetric(oracle: Address, id: nat, key: string, delta: u64, now: u64)
        returns (value: Option<nat>)
      requires Valid()
      modifies this
      ensures Valid()
      ensures Commits(old(world), AfterAddMetric(old(world), oracle, id, key, delta, now), world, value.Some?)
      ensures value.Some? ==> value.value == MetricOf(metrics, id, key)
    {
      if config.paused || oracle != config.oracle || id !in entries {
        return None;
      }
      ghost var next := AfterAddMetric(world, oracle, id, key, delta, now);
      assert Reachable(next.value) by { NextIsReachable(world, Call.AddMetric(oracle, id, key, delta, now)); }
      var sum := SatAdd(MetricOf(metrics, id, key), delta, U64_MAX);
      Measure(id, key, sum, delta, now);
      world := next.value;
      value := Some(sum);
    }

    // ---- Migration and URIs ----

    method MigrateMetadata(caller: Address, id: nat, schema: u32, p: Migration, now: u64) returns (version: Option<nat>)
      requires Valid()
      modifies this
      ensures Valid() && Commits(old(world), AfterMigrate(old(world), caller, id, schema, p, now), world, version.Some?)
      ensures version.Some? ==> id in entries && version.value == |entries[id].versions|
    {
      if caller != config.migrator || !ValidSchema(schema) || schema < config.schema
         || |p.stringTraits| > MAX_TRAITS || |p.numericTraits| > MAX_TRAITS || id !in entries {
        return None;
      }
      ghost var next := AfterMigrate(world, caller, id, schema, p, now);
      assert Reachable(next.value) by { NextIsReachable(world, Call.Migrate(caller, id, schema, p, now)); }
      Migrate(id, p, schema, caller, now);
      world := next.value;
      version := Some(|entries[id].versions|);
    }

    method Migrate(id: nat, p: Migration, schema: u32, author: Address, now: nat)
      requires id in entries
      modifies this`entries
      ensures entries == old(entries)[id := Migrated(old(entries)[id], p, schema, author, now)]
    {
      var t := entries[id].token;
      SnapshotVersion(id, t, author, "migrate", now);
      var reason := MigrationReason(t.schema, schema);
      t := t.(name := p.name, description := p.description, externalUri := p.externalUri,
              stringTraits := p.stringTraits, numericTraits := p.numericTraits);
      if p.imageId > 0 {
        t := t.(imageId := p.imageId);
      }
      if p.level > 0 {
        t := t.(level := p.level);
      }
      if p.rarity > 0 {
        t := t.(rarity := p.rarity);
      }
      Rewrite(id, t.(schema := schema, updatedAt := now), author, reason, now);
    }

    /** The cached URI, or else a fresh one, which is cached. */
    method GetImageUri(id: nat) returns (uri: Option<string>)
      requires Valid()
      modifies this
      ensures Valid() && Commits(old(world), AfterGetUri(old(world), id), world, uri.Some?)
      ensures uri.Some? ==> id in entries && entries[id].uri == uri
    {
      if id !in entries {
        return None;
      }
      var e := entries[id];
      if e.uri.Some? {
        return e.uri;
      }
      uri := BuildUri(config.base, e.token.id, e.token.level, e.token.rarity);
      if uri.Some? {
        NextIsReachable(world, Call.GetUri(id));
        world := AfterGetUri(world, id).value;
        entries := entries[id := e.(uri := uri)];
      }
    }

    // ---- Administration ----

    method UpdateImageBaseUri(caller: Address, base: string) returns (ok: bool)
      requires Valid()
      modifies this
      ensures Valid() && Commits(old(world), AfterSetBase(old(world), caller, base), world, ok)
    {
      ok := caller == config.admin && base != "" && |base| <= MAX_BASE;
      if ok {
        NextIsReachable(world, Call.SetBase(caller, base));
        world := AfterSetBase(world, caller, base).value;
        config := config.(base := base);
      }
    }

    method UpdateSchemaVersion(caller: Address, schema: u32) returns (ok: bool)
      requires Valid()
      modifies this
      ensures Valid() && Commits(old(world), AfterSetSchema(old(world), caller, schema), world, ok)
    {
      ok := caller == config.admin && ValidSchema(schema) && schema >= config.schema;
      if ok {
        NextIsReachable(world, Call.SetSchema(caller, schema));
        world := AfterSetSchema(world, caller, schema).value;
        config := config.(schema := schema);
      }
    }

    method SetPaused(caller: Address, paused: bool) returns (ok: bool)
      requires Valid()
      modifies this
      ensures Valid() && Commits(old(world), AfterSetPaused(old(world), caller, paused), world, ok)
    {
      ok := caller == config.admin;
      if ok {
        NextIsReachable(world, Call.SetPaused(caller, paused));
        world := AfterSetPaused(world, caller, paused).value;
        config := config.(paused := paused);
      }
    }

    method ConfigureTraitRule(caller: Address, rule: TraitRule) returns (id: Option<nat>)
      requires Valid()
      modifies this
      ensures Valid() && Commits(old(world), AfterAddTraitRule(old(world), caller, rule), world, id.Some?)
      ensures id.Some? ==> id.value == old(rules).nextTrait
    {
      if caller != config.admin || rules.nextTrait >= U64_MAX {
        return None;
      }
      NextIsReachable(world, Call.AddTraitRule(caller, rule));
      world := AfterAddTraitRule(world, caller, rule).value;
      id := Some(rules.nextTrait);
      rules := rules.(traits := rules.traits[rules.nextTrait := rule], nextTrait := rules.nextTrait + 1);
    }

    method RemoveTraitRule(caller: Address, id: nat) returns (ok: bool)
      requires Valid()
      modifies this
      ensures Valid() && Commits(old(world), AfterRemoveTraitRule(old(world), caller, id), world, ok)
    {
      ok := caller == config.admin && id in rules.traits;
      if ok {
        NextIsReachable(world, Call.RemoveTraitRule(caller, id));
        world := AfterRemoveTraitRule(world, caller, id).value;
        rules := rules.(traits := rules.traits - {id});
      }
    }

    method ConfigureTriggerRule(caller: Address, trigger: string, metric: string, threshold: u64,
                                effect: string, param: string, text: string) returns (id: Option<nat>)
      requires Valid()
      modifies this
      ensures Valid()
      ensures Commits(old(world),
                      AfterAddTriggerRule(old(world), caller, trigger, metric, threshold, effect, param, text),
                      world, id.Some?)
      ensures id.Some? ==> id.value == old(rules).nextTrigger
    {
      if caller != config.admin || TriggerOf(trigger).None? || EffectOf(effect).None? || rules.nextTrigger >= U64_MAX {
        return None;
      }
      NextIsReachable(world, Call.AddTriggerRule(caller, trigger, metric, threshold, effect, param, text));
      world := AfterAddTriggerRule(world, caller, trigger, metric, threshold, effect, param, text).value;
      var rule := TriggerRule(TriggerOf(trigger).value, metric, threshold, EffectOf(effect).value, param, text);
      id := Some(rules.nextTrigger);
      rules := rules.(triggers := rules.triggers[rules.nextTrigger := rule], nextTrigger := rules.nextTrigger + 1);
    }

    method RemoveTriggerRule(caller: Address, id: nat) returns (ok: bool)
      requires Valid()
      modifies this
      ensures Valid() && Commits(old(world), AfterRemoveTriggerRule(old(world), caller, id), world, ok)
    {
      ok := caller == config.admin && id in rules.triggers;
      if ok {
        NextIsReachable(world, Call.RemoveTriggerRule(caller, id));
        world := AfterRemoveTriggerRule(world, caller, id).value;
        rules := rules.(triggers := rules.triggers - {id});
      }
    }
  }
}
