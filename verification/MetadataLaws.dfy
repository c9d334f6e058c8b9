/** What each accepted call of the dynamic-metadata contract does, field by field and
    key by key: what a rule tests and leaves behind, and what is recorded. */
module MetadataLaws {
  import opened Host
  import opened Decimals
  import opened MetadataTokens
  import opened MetadataRuns

  // ---- Trigger rules ----

  /** The rule's metric, its number of mints and transfers, or the time since the
      last update reaches the threshold. A metric never stored counts as 0. */
  ghost predicate Reaches(r: TriggerRule, metrics: map<string, nat>, owners: seq<OwnerRecord>, updatedAt: nat,
                          now: nat) {
    || (r.trigger == OnMetric && r.threshold <= (if r.metric in metrics then metrics[r.metric] else 0))
    || (r.trigger == OnOwnerCount && r.threshold <= OwnerEvents(owners))
    || (r.trigger == OnTime && (r.threshold == 0 || updatedAt + r.threshold <= now))
  }

  lemma FiresIffReaches(r: TriggerRule, t: Token, f: Facts)
    ensures Fires(r, t, f) <==> Reaches(r, f.metrics, f.owners, t.updatedAt, f.now)
  {
  }

  /** A rule is counted if and only if it is reached on the token as it was. */
  lemma TriggersCountReached(t: Token, rules: map<nat, TriggerRule>, n: nat, metrics: map<string, nat>,
                             owners: seq<OwnerRecord>, now: nat)
    ensures Triggered(t, rules, n, Facts(metrics, owners, now)).1
         == |set k: nat | k < n && k in rules && Reaches(rules[k], metrics, owners, t.updatedAt, now)|
  {
    var f := Facts(metrics, owners, now);
    TriggersAreIndependent(t, rules, n, f);
    forall k | k in rules ensures Fires(rules[k], t, f) <==> Reaches(rules[k], metrics, owners, t.updatedAt, now) {
      FiresIffReaches(rules[k], t, f);
    }
    assert Firing(t, rules, n, f)
        == set k: nat | k < n && k in rules && Reaches(rules[k], metrics, owners, t.updatedAt, now);
  }

  /** Rule `k` has this effect on this key, and is reached. */
  ghost predicate Writes(rules: map<nat, TriggerRule>, k: nat, effect: Effect, key: string, t: Token, f: Facts) {
    && k in rules && rules[k].effect == effect && rules[k].param == key
    && Reaches(rules[k], f.metrics, f.owners, t.updatedAt, f.now)
  }

  ghost predicate WritesLast(rules: map<nat, TriggerRule>, n: nat, k: nat, effect: Effect, key: string, t: Token,
                             f: Facts) {
    k < n && Writes(rules, k, effect, key, t, f) && forall j :: k < j < n ==> !Writes(rules, j, effect, key, t, f)
  }

  lemma WritesLastBefore(rules: map<nat, TriggerRule>, n: nat, k: nat, effect: Effect, key: string, t: Token, f: Facts)
    requires n > 0 && WritesLast(rules, n, k, effect, key, t, f)
    ensures k == n - 1
         || (WritesLast(rules, n - 1, k, effect, key, t, f) && !Writes(rules, n - 1, effect, key, t, f))
  {
  }

  /** What rule `n - 1` does to the traits the rules before it left. */
  lemma RuleWrites(t: Token, rules: map<nat, TriggerRule>, n: nat, f: Facts)
    requires n > 0
    ensures var so, t' := Triggered(t, rules, n - 1, f).0, Triggered(t, rules, n, f).0;
      var reached := n - 1 in rules && Reaches(rules[n - 1], f.metrics, f.owners, t.updatedAt, f.now);
      && t'.stringTraits == (if reached && rules[n - 1].effect == AddTrait
                             then so.stringTraits[rules[n - 1].param := rules[n - 1].text] else so.stringTraits)
      && t'.numericTraits == (if reached && rules[n - 1].effect == AddNumericTrait
                              then so.numericTraits[rules[n - 1].param := Parsed(rules[n - 1].text)]
                              else so.numericTraits)
  {
    TriggersKeep(t, rules, n - 1, f);
    if n - 1 in rules { FiresIffReaches(rules[n - 1], Triggered(t, rules, n - 1, f).0, f); }
  }

  /** The last rule that is reached and adds the trait gives it its text. */
  lemma {:induction false} LastRuleGivesTrait(t: Token, rules: map<nat, TriggerRule>, n: nat, f: Facts, key: string,
                                            k: nat)
    requires WritesLast(rules, n, k, AddTrait, key, t, f)
    ensures var t' := Triggered(t, rules, n, f).0; key in t'.stringTraits && t'.stringTraits[key] == rules[k].text
    decreases n
  {
    RuleWrites(t, rules, n, f);
    WritesLastBefore(rules, n, k, AddTrait, key, t, f);
    if k != n - 1 {
      LastRuleGivesTrait(t, rules, n - 1, f, key, k);
    }
  }

  /** A trait that no reached rule adds stays as it was. */
  lemma {:induction false} OtherRulesKeepTrait(t: Token, rules: map<nat, TriggerRule>, n: nat, f: Facts,
                                               key: string)
    requires forall k :: 0 <= k < n ==> !Writes(rules, k, AddTrait, key, t, f)
    ensures var t' := Triggered(t, rules, n, f).0;
      && (key in t'.stringTraits <==> key in t.stringTraits)
      && (key in t.stringTraits ==> t'.stringTraits[key] == t.stringTraits[key])
    decreases n
  {
    if n > 0 {
      OtherRulesKeepTrait(t, rules, n - 1, f, key);
      RuleWrites(t, rules, n, f);
      assert !Writes(rules, n - 1, AddTrait, key, t, f);
    }
  }

  /** The last rule that is reached and adds the number gives it what its text stands for. */
  lemma {:induction false} LastRuleGivesNumber(t: Token, rules: map<nat, TriggerRule>, n: nat, f: Facts, key: string,
                                            k: nat)
    requires WritesLast(rules, n, k, AddNumericTrait, key, t, f)
    ensures var t' := Triggered(t, rules, n, f).0;
      key in t'.numericTraits && t'.numericTraits[key] == Parsed(rules[k].text)
    decreases n
  {
    RuleWrites(t, rules, n, f);
    WritesLastBefore(rules, n, k, AddNumericTrait, key, t, f);
    if k != n - 1 {
      LastRuleGivesNumber(t, rules, n - 1, f, key, k);
    }
  }

  /** A number that no reached rule adds stays as it was. */
  lemma {:induction false} OtherRulesKeepNumber(t: Token, rules: map<nat, TriggerRule>, n: nat, f: Facts,
                                                key: string)
    requires forall k :: 0 <= k < n ==> !Writes(rules, k, AddNumericTrait, key, t, f)
    ensures var t' := Triggered(t, rules, n, f).0;
      && (key in t'.numericTraits <==> key in t.numericTraits)
      && (key in t.numericTraits ==> t'.numericTraits[key] == t.numericTraits[key])
    decreases n
  {
    if n > 0 {
      OtherRulesKeepNumber(t, rules, n - 1, f, key);
      RuleWrites(t, rules, n, f);
      assert !Writes(rules, n - 1, AddNumericTrait, key, t, f);
    }
  }

  /** What the reached bump rules add to the level. */
  ghost function BumpSum(t: Token, rules: map<nat, TriggerRule>, n: nat, f: Facts): nat {
    if n == 0 then 0 else
      BumpSum(t, rules, n - 1, f)
      + if n - 1 in rules && rules[n - 1].effect == BumpLevel
           && Reaches(rules[n - 1], f.metrics, f.owners, t.updatedAt, f.now) then Parsed(rules[n - 1].text) else 0
  }

  lemma {:induction false} BumpsAddUp(t: Token, rules: map<nat, TriggerRule>, n: nat, f: Facts)
    ensures Bumps(t, rules, n, f) == BumpSum(t, rules, n, f)
    decreases n
  {
    if n > 0 {
      BumpsAddUp(t, rules, n - 1, f);
      if n - 1 in rules { FiresIffReaches(rules[n - 1], t, f); }
    }
  }

  /** The level grows by what the reached bump rules ask for, up to 2^32 - 1. */
  lemma LevelGrows(t: Token, rules: map<nat, TriggerRule>, n: nat, f: Facts)
    ensures var level, sum := Triggered(t, rules, n, f).0.level, t.level + BumpSum(t, rules, n, f);
      level == if sum > 0xFFFF_FFFF then 0xFFFF_FFFF else sum
  {
    LevelIsBumped(t, rules, n, f);
    BumpsAddUp(t, rules, n, f);
  }

  // ---- Calls about one token ----

  /** Only token `id` is changed or added. */
  ghost predicate OnlyToken(w: World, w': World, id: nat) {
    && id in w'.entries && w'.entries == w.entries[id := w'.entries[id]]
    && w'.config == w.config && w'.rules == w.rules
  }

  /** One version is added, of the token as it is now. */
  ghost predicate Versioned(e: Entry, e': Entry, author: Address, reason: string, now: nat) {
    && |e'.versions| == |e.versions| + 1 && e.versions <= e'.versions
    && e'.versions[|e.versions|] == Version(|e.versions| + 1, e'.token, author, reason, now)
  }

  ghost predicate Manages(w: World, caller: Address, id: nat) {
    id in w.entries && (caller == w.entries[id].token.owner || caller == w.config.admin)
  }

  /** A new token is the one described, at level and rarity 1 without a score, owned
      as described and minted by the caller. */
  lemma MintRecords(w: World, minter: Address, t: Token, now: nat)
    requires Reachable(w)
    ensures var next := Next(w, MintToken(minter, t, now));
      && (next.Some? <==> !w.config.paused && |t.stringTraits| <= 32 && |t.numericTraits| <= 32 && w.nextId < U32_MAX)
      && (next.Some? ==>
            var w', id := next.value, w.nextId;
            && OnlyToken(w, w', id) && w'.nextId == id + 1 && w'.metrics == w.metrics
            && var e := w'.entries[id];
               && e.token == t.(id := id, level := 1, rarity := 1, score := 0, schema := w.config.schema,
                                createdAt := now, updatedAt := now, frozen := false)
               && e.owners == [OwnerRecord(t.owner, Mint, now, minter)]
               && e.versions == [Version(1, e.token, minter, "mint", now)])
  {
    ReachableIsSound(w);
  }

  lemma TransferRecords(w: World, from: Address, to: Address, id: nat, now: nat)
    ensures var next := Next(w, TransferToken(from, to, id, now));
      && (next.Some? <==> !w.config.paused && id in w.entries && w.entries[id].token.owner == from)
      && (next.Some? ==>
            var w', e := next.value, w.entries[id];
            && OnlyToken(w, w', id) && w'.nextId == w.nextId && w'.metrics == w.metrics
            && var e' := w'.entries[id];
               && e'.token == e.token.(owner := to, updatedAt := now) && e'.uri == e.uri
               && e'.owners == e.owners + [OwnerRecord(to, Transfer, now, from)]
               && Versioned(e, e', from, "transfer", now))
  {
  }

  lemma BurnRecords(w: World, caller: Address, id: nat, now: nat)
    ensures var next := Next(w, BurnToken(caller, id, now));
      && (next.Some? <==> !w.config.paused && id in w.entries && w.entries[id].token.owner == caller
                          && !w.entries[id].token.frozen)
      && (next.Some? ==>
            var w', e := next.value, w.entries[id];
            && OnlyToken(w, w', id) && w'.nextId == w.nextId && w'.metrics == w.metrics
            && var e' := w'.entries[id];
               && e'.token == e.token.(updatedAt := now) && e'.uri == e.uri
               && e'.owners == e.owners + [OwnerRecord(caller, Burn, now, caller)]
               && Versioned(e, e', caller, "burn", now))
  {
  }

  /** Who may edit, and what an edit asks for: empty and zero fields are skipped, a new
      trait needs room under the limit of 32, an increment does not. */
  lemma EditRecords(w: World, caller: Address, id: nat, edit: Edit, now: nat)
    ensures var next := Next(w, EditToken(caller, id, edit, now));
      && (next.Some? <==>
            && !w.config.paused && Manages(w, caller, id) && !w.entries[id].token.frozen
            && var t := w.entries[id].token;
               && (edit.SetString? ==> edit.key in t.stringTraits || |t.stringTraits| < 32)
               && (edit.SetNumeric? ==> edit.key in t.numericTraits || |t.numericTraits| < 32))
      && (next.Some? ==>
            var w', e := next.value, w.entries[id];
            && OnlyToken(w, w', id) && w'.nextId == w.nextId && w'.metrics == w.metrics
            && var e' := w'.entries[id];
               && e'.uri == None && e'.owners == e.owners && e'.token.updatedAt == now
               && Versioned(e, e', caller, ReasonOf(edit), now)
               && (edit.Fields? ==>
                     && e'.token.name == (if |edit.name| > 0 then edit.name else e.token.name)
                     && e'.token.description == (if |edit.description| > 0 then edit.description
                                                 else e.token.description)
                     && e'.token.imageId == (if edit.imageId > 0 then edit.imageId else e.token.imageId)
                     && e'.token.externalUri == (if |edit.externalUri| > 0 then edit.externalUri
                                                 else e.token.externalUri)))
  {
  }

  lemma FreezeRecords(w: World, caller: Address, id: nat, on: bool, now: nat)
    ensures var next := Next(w, Freeze(caller, id, on, now));
      && (next.Some? <==> Manages(w, caller, id))
      && (next.Some? ==>
            var w', e := next.value, w.entries[id];
            && OnlyToken(w, w', id) && w'.nextId == w.nextId && w'.metrics == w.metrics
            && var e' := w'.entries[id];
               && e'.token == e.token.(frozen := on, updatedAt := now) && e'.uri == None && e'.owners == e.owners
               && Versioned(e, e', caller, if on then "freeze" else "unfreeze", now))
  {
  }

  /** Who may migrate, to what schema, and the two versions recorded: the token before
      and the token after. */
  lemma MigrationRecords(w: World, caller: Address, id: nat, schema: u32, p: Migration, now: nat)
    ensures var next := Next(w, Migrate(caller, id, schema, p, now));
      && (next.Some? <==> caller == w.config.migrator && id in w.entries && 1 <= schema <= 10
                          && w.config.schema <= schema && |p.stringTraits| <= 32 && |p.numericTraits| <= 32)
      && (next.Some? ==>
            var w', e := next.value, w.entries[id];
            && OnlyToken(w, w', id) && w'.nextId == w.nextId && w'.metrics == w.metrics
            && var e' := w'.entries[id];
               && e'.owners == e.owners && e'.uri == None && |e'.versions| == |e.versions| + 2
               && e.versions <= e'.versions && e'.versions[|e.versions|].snapshot == e.token
               && e'.versions[|e.versions| + 1].snapshot == e'.token
               && e'.token == e.token.(
                    name := p.name, description := p.description, externalUri := p.externalUri,
                    stringTraits := p.stringTraits, numericTraits := p.numericTraits,
                    imageId := e'.token.imageId, level := e'.token.level, rarity := e'.token.rarity,
                    schema := schema, updatedAt := now)
               && e'.token.imageId == (if p.imageId == 0 then e.token.imageId else p.imageId)
               && e'.token.level == (if p.level == 0 then e.token.level else p.level)
               && e'.token.rarity == (if p.rarity == 0 then e.token.rarity else p.rarity))
  {
  }

  // ---- Evolution ----

  /** Rule `k` is the one to apply: it is in force for the token's score and level, has
      the highest threshold of those, and is the oldest with it. */
  ghost predicate Applies(rules: map<nat, TraitRule>, n: nat, t: Token, k: nat) {
    && k < n && k in rules && rules[k].threshold <= t.score && rules[k].level <= t.level
    && forall j :: 0 <= j < n && j in rules && rules[j].threshold <= t.score && rules[j].level <= t.level ==>
         rules[j].threshold < rules[k].threshold || (rules[j].threshold == rules[k].threshold && k <= j)
  }

  /** The rule to apply gives its trait and raises the rarity, never the level, and adds
      a version; without one nothing happens. */
  lemma EvolutionGivesTrait(e: Entry, rules: map<nat, TraitRule>, n: nat, self: Address, now: nat)
    ensures var e' := Evolved(e, rules, n, self, now);
      && (forall k :: Applies(rules, n, e.token, k) && !e.token.frozen ==>
            && e'.token == e.token.(stringTraits := e.token.stringTraits[rules[k].traitName := rules[k].traitValue],
                                    rarity := e'.token.rarity, updatedAt := now)
            && e'.token.rarity == (if rules[k].rarity > e.token.rarity then rules[k].rarity else e.token.rarity)
            && e'.owners == e.owners && e'.uri == None && Versioned(e, e', self, "evolve_traits", now))
      && (e.token.frozen || (forall k :: !Applies(rules, n, e.token, k)) ==> e' == e)
  {
    BestRuleIsBest(rules, n, e.token);
    if k :| IsBest(rules, n, e.token, k) && BestRule(rules, n, e.token) == Some(rules[k]) {
      assert Applies(rules, n, e.token, k);
      forall j | Applies(rules, n, e.token, j) ensures j == k {
      }
    }
  }

  lemma EvolveRecords(w: World, caller: Address, id: nat, now: nat)
    ensures var next := Next(w, Evolve(caller, id, now));
      && (next.Some? <==> !w.config.paused && Manages(w, caller, id) && !w.entries[id].token.frozen)
      && (next.Some? ==>
            && OnlyToken(w, next.value, id) && next.value.nextId == w.nextId && next.value.metrics == w.metrics
            && next.value.entries[id] == Evolved(w.entries[id], w.rules.traits, w.rules.nextTrait, w.config.self, now))
  {
  }

  /** Reached rules leave a new version; without one the token stays as it was. */
  lemma FireRecords(w: World, caller: Address, id: nat, now: nat)
    ensures var next := Next(w, Fire(caller, id, now));
      && (next.Some? <==> !w.config.paused && Manages(w, caller, id) && !w.entries[id].token.frozen)
      && (next.Some? ==>
            var w', e, metrics := next.value, w.entries[id], if id in w.metrics then w.metrics[id] else map[];
            var (t, count) := Triggered(e.token, w.rules.triggers, w.rules.nextTrigger, Facts(metrics, e.owners, now));
            && OnlyToken(w, w', id) && w'.nextId == w.nextId && w'.metrics == w.metrics
            && (count == 0 ==> w'.entries[id] == e)
            && (count > 0 ==>
                  && w'.entries[id].token == t.(updatedAt := now)
                  && w'.entries[id].owners == e.owners && w'.entries[id].uri == None
                  && Versioned(e, w'.entries[id], w.config.self, "trigger_apply", now)))
  {
  }

  // ---- Metrics ----

  /** The stored metric, 0 if there is none. */
  function Stored(metrics: Metrics, id: nat, key: string): nat {
    if id in metrics && key in metrics[id] then metrics[id][key] else 0
  }

  /** Only the oracle measures. A metric set is the value given; a metric added to grows
      up to 2^64 - 1. No other metric of any token changes. */
  lemma MetricIsStored(w: World, c: Call, id: nat, key: string)
    requires c.SetMetric? || c.AddMetric?
    ensures var next, was := Next(w, c), Stored(w.metrics, c.id, c.key);
      && (next.Some? <==> !w.config.paused && c.caller == w.config.oracle && c.id in w.entries)
      && (next.Some? ==>
            Stored(next.value.metrics, id, key)
            == if id != c.id || key != c.key then Stored(w.metrics, id, key)
               else if c.SetMetric? then c.value
               else if was + c.value > U64_MAX then U64_MAX else was + c.value)
  {
  }

  /** The score grows by what was added or by an increase, up to 2^64 - 1; then the
      evolution rules see the token with the new score, and the trigger rules see the
      token that this left and the new metrics. */
  lemma MeasuringAppliesRules(w: World, c: Call)
    requires (c.SetMetric? || c.AddMetric?) && Next(w, c).Some?
    ensures c.id in w.entries && OnlyToken(w, Next(w, c).value, c.id)
    ensures var w', e, was := Next(w, c).value, w.entries[c.id], Stored(w.metrics, c.id, c.key);
      var grown := e.token.score + if c.AddMetric? then c.value else if c.value > was then c.value - was else 0;
      var scored := e.(token := e.token.(score := if grown > U64_MAX then U64_MAX else grown));
      var evolved := Evolved(scored, w.rules.traits, w.rules.nextTrait, w.config.self, c.now);
      var metrics := if c.id in w'.metrics then w'.metrics[c.id] else map[];
      w'.entries[c.id]
      == AfterTriggers(evolved, w.rules.triggers, w.rules.nextTrigger, metrics, w.config.self, c.now)
  {
  }

  /** What the trigger rules make of a token's records. */
  lemma TriggersRecord(e: Entry, rules: map<nat, TriggerRule>, n: nat, metrics: map<string, nat>, self: Address,
                       now: nat)
    ensures var (t, count) := Triggered(e.token, rules, n, Facts(metrics, e.owners, now));
      var e' := AfterTriggers(e, rules, n, metrics, self, now);
      && (e.token.frozen || count == 0 ==> e' == e)
      && (!e.token.frozen && count > 0 ==>
            && e'.token == t.(updatedAt := now) && e'.owners == e.owners && e'.uri == None
            && Versioned(e, e', self, "trigger_apply", now))
  {
  }

  // ---- Settings ----

  lemma SettingsAreSet(w: World, c: Call)
    requires c.SetBase? || c.SetSchema? || c.SetPaused?
    ensures Next(w, c).Some? <==>
      && c.caller == w.config.admin && (c.SetBase? ==> 1 <= |c.base| <= 200)
      && (c.SetSchema? ==> 1 <= c.schema <= 10 && w.config.schema <= c.schema)
    ensures Next(w, c).Some? ==>
      && Next(w, c).value == w.(config := Next(w, c).value.config)
      && Next(w, c).value.config
         == if c.SetBase? then w.config.(base := c.base) else if c.SetSchema? then w.config.(schema := c.schema)
            else w.config.(paused := c.paused)
  {
  }

  /** Rules are kept under the next id, by the administrator; only the three triggers
      and the three effects there are can be named. */
  lemma TriggerRuleIsKept(w: World, c: Call)
    requires c.AddTriggerRule?
    ensures Next(w, c).Some? <==>
      && c.caller == w.config.admin && w.rules.nextTrigger < U64_MAX
      && c.trigger in {"metric", "ownership_count", "time"}
      && c.effect in {"add_trait", "add_numeric_trait", "bump_level"}
    ensures Next(w, c).Some? ==>
      var w', k := Next(w, c).value, w.rules.nextTrigger;
      && w' == w.(rules := w.rules.(triggers := w'.rules.triggers, nextTrigger := k + 1))
      && k in w'.rules.triggers && w'.rules.triggers == w.rules.triggers[k := w'.rules.triggers[k]]
      && var r := w'.rules.triggers[k];
         && r.metric == c.metric && r.threshold == c.threshold && r.param == c.param && r.text == c.text
         && (r.trigger == OnMetric <==> c.trigger == "metric") && (r.trigger == OnTime <==> c.trigger == "time")
         && (r.effect == AddTrait <==> c.effect == "add_trait")
         && (r.effect == BumpLevel <==> c.effect == "bump_level")
  {
  }

  lemma RulesAreAddedAndRemoved(w: World, c: Call)
    requires c.AddTraitRule? || c.RemoveTraitRule? || c.RemoveTriggerRule?
    ensures Next(w, c).Some? <==>
      && c.caller == w.config.admin
      && (c.AddTraitRule? ==> w.rules.nextTrait < U64_MAX)
      && (c.RemoveTraitRule? ==> c.id in w.rules.traits) && (c.RemoveTriggerRule? ==> c.id in w.rules.triggers)
    ensures Next(w, c).Some? ==>
      && Next(w, c).value == w.(rules := Next(w, c).value.rules)
      && Next(w, c).value.rules
         == if c.AddTraitRule? then w.rules.(traits := w.rules.traits[w.rules.nextTrait := c.rule],
                                             nextTrait := w.rules.nextTrait + 1)
            else if c.RemoveTraitRule?
            then w.rules.(traits := map k | k in w.rules.traits && k != c.id :: w.rules.traits[k])
            else w.rules.(triggers := map k | k in w.rules.triggers && k != c.id :: w.rules.triggers[k])
  {
  }
}
