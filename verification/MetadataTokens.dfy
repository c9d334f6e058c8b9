/** One dynamic token: its metadata, its two histories and its cached image URI,
    and what the operations make of them. */
module MetadataTokens {
  import opened Host
  import opened Decimals
  import opened ImageUri

  const MAX_TRAITS := 32

  datatype Token = Token(
    id: u32, owner: Address, name: string, description: string, imageId: nat, externalUri: string,
    stringTraits: map<string, string>, numericTraits: map<string, nat>,
    level: u32, rarity: u32, score: u64, schema: u32, createdAt: nat, updatedAt: nat, frozen: bool)

  datatype Event = Mint | Transfer | Burn

  datatype OwnerRecord = OwnerRecord(owner: Address, event: Event, at: nat, previous: Address)

  datatype Version = Version(number: nat, snapshot: Token, author: Address, reason: string, at: nat)

  /** The four records kept under one token id. */
  datatype Entry = Entry(token: Token, owners: seq<OwnerRecord>, versions: seq<Version>, uri: Option<string>)

  function SatAdd(a: nat, b: nat, max: nat): (c: nat)
    ensures c <= max
  {
    if a + b > max then max else a + b
  }

  // ---- Writing ----

  function Snapshot(versions: seq<Version>, t: Token, author: Address, reason: string, now: nat): seq<Version> {
    versions + [Version(|versions| + 1, t, author, reason, now)]
  }

  /** The metadata written anew: the cached URI goes, a version is added. */
  function Rewritten(e: Entry, t: Token, author: Address, reason: string, now: nat): Entry {
    e.(token := t, uri := None, versions := Snapshot(e.versions, t, author, reason, now))
  }

  function Minted(t: Token, minter: Address, base: string, now: nat): Entry {
    Entry(t, [OwnerRecord(t.owner, Mint, now, minter)], Snapshot([], t, minter, "mint", now),
          Some(Uri(base, t.id, t.level, t.rarity)))
  }

  function Transferred(e: Entry, to: Address, now: nat): Entry {
    var t := e.token.(owner := to, updatedAt := now);
    e.(token := t, owners := e.owners + [OwnerRecord(to, Transfer, now, e.token.owner)],
       versions := Snapshot(e.versions, t, e.token.owner, "transfer", now))
  }

  function Burned(e: Entry, now: nat): Entry {
    var t := e.token.(updatedAt := now);
    e.(token := t, owners := e.owners + [OwnerRecord(t.owner, Burn, now, t.owner)],
       versions := Snapshot(e.versions, t, t.owner, "burn", now))
  }

  function IsBurned(owners: seq<OwnerRecord>): bool {
    |owners| > 0 && owners[|owners| - 1].event == Burn
  }

  // ---- Edits by the owner or the administrator ----

  datatype Edit =
    | Fields(name: string, description: string, imageId: nat, externalUri: string)
    | SetString(key: string, text: string)
    | DropString(key: string)
    | SetNumeric(key: string, number: nat)
    | AddNumeric(key: string, delta: nat)

  function ReasonOf(edit: Edit): string {
    match edit
    case Fields(_, _, _, _) => "update"
    case SetString(_, _) => "add_string_trait"
    case DropString(_) => "remove_string_trait"
    case SetNumeric(_, _) => "add_numeric_trait"
    case AddNumeric(_, _) => "increment_numeric_trait"
  }

  function Numeric(t: Token, key: string): nat {
    if key in t.numericTraits then t.numericTraits[key] else 0
  }

  /** None if a new trait would be one too many. */
  function Edited(t: Token, edit: Edit): Option<Token> {
    match edit
    case Fields(name, description, imageId, externalUri) =>
      Some(t.(name := if name != "" then name else t.name,
              description := if description != "" then description else t.description,
              imageId := if imageId > 0 then imageId else t.imageId,
              externalUri := if externalUri != "" then externalUri else t.externalUri))
    case SetString(key, text) =>
      if key !in t.stringTraits && |t.stringTraits| >= MAX_TRAITS then None
      else Some(t.(stringTraits := t.stringTraits[key := text]))
    case DropString(key) => Some(t.(stringTraits := t.stringTraits - {key}))
    case SetNumeric(key, number) =>
      if key !in t.numericTraits && |t.numericTraits| >= MAX_TRAITS then None
      else Some(t.(numericTraits := t.numericTraits[key := number]))
    case AddNumeric(key, delta) =>
      Some(t.(numericTraits := t.numericTraits[key := SatAdd(Numeric(t, key), delta, U32_MAX)]))
  }

  /** An edit touches its own group of fields and nothing else. */
  lemma EditsAreLocal(t: Token, edit: Edit)
    requires Edited(t, edit).Some?
    ensures var t' := Edited(t, edit).value;
      match edit
      case Fields(_, _, _, _) =>
        t'.(name := t.name, description := t.description, imageId := t.imageId, externalUri := t.externalUri) == t
      case SetString(_, _) => t'.(stringTraits := t.stringTraits) == t
      case DropString(_) => t'.(stringTraits := t.stringTraits) == t
      case SetNumeric(_, _) => t'.(numericTraits := t.numericTraits) == t
      case AddNumeric(_, _) => t'.(numericTraits := t.numericTraits) == t
  {
  }

  /** Of the traits exactly the named one changes, and to what was asked. */
  lemma EditsChangeOneTrait(t: Token, edit: Edit, k: string)
    requires Edited(t, edit).Some? && !edit.Fields?
    ensures var t' := Edited(t, edit).value;
      && (k != edit.key ==>
            && (k in t'.stringTraits <==> k in t.stringTraits)
            && (k in t.stringTraits ==> t'.stringTraits[k] == t.stringTraits[k])
            && Numeric(t', k) == Numeric(t, k))
      && (edit.SetString? ==> edit.key in t'.stringTraits && t'.stringTraits[edit.key] == edit.text)
      && (edit.DropString? ==> edit.key !in t'.stringTraits)
      && (edit.SetNumeric? ==> Numeric(t', edit.key) == edit.number)
      && (edit.AddNumeric? ==> Numeric(t', edit.key) == SatAdd(Numeric(t, edit.key), edit.delta, U32_MAX))
  {
  }

  // ---- Evolution rules ----

  datatype TraitRule = TraitRule(metric: string, threshold: nat, traitName: string, traitValue: string, level: u32,
                                 rarity: u32)

  predicate Eligible(r: TraitRule, t: Token) {
    t.score >= r.threshold && t.level >= r.level
  }

  /** The rule the loop over all ids below `n` ends up with. */
  function BestRule(rules: map<nat, TraitRule>, n: nat, t: Token): Option<TraitRule> {
    if n == 0 then None else
      var best := BestRule(rules, n - 1, t);
      if n - 1 in rules && Eligible(rules[n - 1], t) && (best.None? || rules[n - 1].threshold > best.value.threshold)
      then Some(rules[n - 1]) else best
  }

  ghost predicate IsBest(rules: map<nat, TraitRule>, n: nat, t: Token, id: nat) {
    && id < n && id in rules && Eligible(rules[id], t)
    && forall k :: 0 <= k < n && k in rules && Eligible(rules[k], t) ==>
         rules[k].threshold <= rules[id].threshold && (k < id ==> rules[k].threshold < rules[id].threshold)
  }

  lemma {:induction false} NoBestRule(rules: map<nat, TraitRule>, n: nat, t: Token)
    ensures BestRule(rules, n, t).None? <==> forall id :: 0 <= id < n && id in rules ==> !Eligible(rules[id], t)
    decreases n
  {
    if n > 0 { NoBestRule(rules, n - 1, t); }
  }

  lemma {:induction false} BestRuleId(rules: map<nat, TraitRule>, n: nat, t: Token) returns (id: nat)
    requires BestRule(rules, n, t).Some?
    ensures IsBest(rules, n, t, id) && BestRule(rules, n, t).value == rules[id]
    decreases n
  {
    id := n - 1;
    if BestRule(rules, n - 1, t).Some? {
      var before := BestRuleId(rules, n - 1, t);
      if !(n - 1 in rules && Eligible(rules[n - 1], t) && rules[n - 1].threshold > rules[before].threshold) {
        id := before;
      }
    } else {
      NoBestRule(rules, n - 1, t);
    }
  }

  /** Of the rules that apply it is the one with the highest threshold, and the
      oldest of those; there is none exactly if no rule applies. */
  lemma BestRuleIsBest(rules: map<nat, TraitRule>, n: nat, t: Token)
    ensures var best := BestRule(rules, n, t);
      && (best.None? <==> forall id :: 0 <= id < n && id in rules ==> !Eligible(rules[id], t))
      && (best.Some? ==> exists id :: IsBest(rules, n, t, id) && best.value == rules[id])
  {
    NoBestRule(rules, n, t);
    if BestRule(rules, n, t).Some? {
      var id := BestRuleId(rules, n, t);
    }
  }

  function EvolvedToken(t: Token, r: TraitRule, now: nat): Token {
    t.(stringTraits := t.stringTraits[r.traitName := r.traitValue],
       rarity := if r.rarity > t.rarity then r.rarity else t.rarity,
       level := if r.level > t.level then r.level else t.level, updatedAt := now)
  }

  function Evolved(e: Entry, rules: map<nat, TraitRule>, n: nat, self: Address, now: nat): Entry {
    if e.token.frozen then e else
      match BestRule(rules, n, e.token)
      case None => e
      case Some(r) => Rewritten(e, EvolvedToken(e.token, r, now), self, "evolve_traits", now)
  }

  /** A rule applies only from its level up, so evolution never raises a level. */
  lemma EvolutionNeverLevelsUp(e: Entry, rules: map<nat, TraitRule>, n: nat, self: Address, now: nat)
    ensures Evolved(e, rules, n, self, now).token.level == e.token.level
    ensures Evolved(e, rules, n, self, now).token.rarity >= e.token.rarity
  {
    BestRuleIsBest(rules, n, e.token);
  }

  // ---- Trigger rules ----

  datatype Trigger = OnMetric | OnOwnerCount | OnTime

  datatype Effect = AddTrait | AddNumericTrait | BumpLevel

  datatype TriggerRule = TriggerRule(trigger: Trigger, metric: string, threshold: nat, effect: Effect, param: string,
                                     text: string)

  function TriggerOf(name: string): Option<Trigger> {
    if name == "metric" then Some(OnMetric)
    else if name == "ownership_count" then Some(OnOwnerCount)
    else if name == "time" then Some(OnTime)
    else None
  }

  function EffectOf(name: string): Option<Effect> {
    if name == "add_trait" then Some(AddTrait)
    else if name == "add_numeric_trait" then Some(AddNumericTrait)
    else if name == "bump_level" then Some(BumpLevel)
    else None
  }

  /** Mints and transfers; an owner who comes back counts again. */
  function OwnerEvents(owners: seq<OwnerRecord>): nat {
    if owners == [] then 0
    else OwnerEvents(owners[..|owners| - 1]) + if owners[|owners| - 1].event == Burn then 0 else 1
  }

  /** Everybody who ever owned the token. */
  ghost function OwnersSeen(owners: seq<OwnerRecord>): set<Address> {
    set r | r in owners && r.event != Burn :: r.owner
  }

  /** Nobody received the token twice. */
  ghost predicate NobodyReturns(owners: seq<OwnerRecord>) {
    forall i, j :: 0 <= i < j < |owners| && owners[i].event != Burn && owners[j].event != Burn ==>
      owners[i].owner != owners[j].owner
  }

  /** The number the ownership rules go by is at least the number of distinct
      owners, and equal to it if and only if nobody received the token twice. */
  lemma {:induction false} OwnerEventsIff(owners: seq<OwnerRecord>)
    ensures OwnerEvents(owners) >= |OwnersSeen(owners)|
    ensures OwnerEvents(owners) == |OwnersSeen(owners)| <==> NobodyReturns(owners)
    decreases |owners|
  {
    if owners == [] {
      assert OwnersSeen(owners) == {};
    } else {
      var init, last := owners[..|owners| - 1], owners[|owners| - 1];
      assert owners == init + [last];
      OwnerEventsIff(init);
      if last.event == Burn {
        assert OwnersSeen(owners) == OwnersSeen(init);
        assert NobodyReturns(owners) <==> NobodyReturns(init);
      } else {
        OneMoreOwner(init, last);
      }
    }
  }

  lemma OneMoreOwner(init: seq<OwnerRecord>, last: OwnerRecord)
    requires last.event != Burn
    ensures OwnersSeen(init + [last]) == OwnersSeen(init) + {last.owner}
    ensures NobodyReturns(init + [last]) <==> NobodyReturns(init) && last.owner !in OwnersSeen(init)
  {
    var owners := init + [last];
    assert forall r :: r in owners <==> r in init || r == last;
    if last.owner in OwnersSeen(init) {
      var i :| 0 <= i < |init| && init[i].event != Burn && init[i].owner == last.owner;
      assert owners[i].owner == owners[|init|].owner;
    } else if NobodyReturns(init) {
      forall i, j | 0 <= i < j < |owners| && owners[i].event != Burn && owners[j].event != Burn
        ensures owners[i].owner != owners[j].owner
      {
        assert owners[i] in init;
      }
    }
    if NobodyReturns(owners) {
      forall i, j | 0 <= i < j < |init| && init[i].event != Burn && init[j].event != Burn
        ensures init[i].owner != init[j].owner
      {
        assert owners[i] == init[i] && owners[j] == init[j];
      }
    }
  }

  /** What the rules look at: the token's metrics, its owners and the time. */
  datatype Facts = Facts(metrics: map<string, nat>, owners: seq<OwnerRecord>, now: nat)

  function Fires(r: TriggerRule, t: Token, f: Facts): bool {
    match r.trigger
    case OnMetric => (if r.metric in f.metrics then f.metrics[r.metric] else 0) >= r.threshold
    case OnOwnerCount => OwnerEvents(f.owners) >= r.threshold
    case OnTime => (if f.now < t.updatedAt then 0 else f.now - t.updatedAt) >= r.threshold
  }

  /** An ownership rule fires as documented, on distinct owners, exactly unless the
      threshold lies above their number and is reached only by those who came
      back; so always if nobody received the token twice. */
  lemma OwnershipRuleIff(r: TriggerRule, t: Token, f: Facts)
    requires r.trigger == OnOwnerCount
    ensures (Fires(r, t, f) <==> |OwnersSeen(f.owners)| >= r.threshold)
       <==> !(|OwnersSeen(f.owners)| < r.threshold <= OwnerEvents(f.owners))
    ensures NobodyReturns(f.owners) ==> (Fires(r, t, f) <==> |OwnersSeen(f.owners)| >= r.threshold)
  {
    OwnerEventsIff(f.owners);
  }

  function Affected(t: Token, r: TriggerRule): Token {
    match r.effect
    case AddTrait => t.(stringTraits := t.stringTraits[r.param := r.text])
    case AddNumericTrait => t.(numericTraits := t.numericTraits[r.param := Parsed(r.text)])
    case BumpLevel => t.(level := SatAdd(t.level, Parsed(r.text), U32_MAX))
  }

  /** The token after all rules with ids below `n`, and how many fired. */
  function Triggered(t: Token, rules: map<nat, TriggerRule>, n: nat, f: Facts): (Token, nat) {
    if n == 0 then (t, 0) else
      var (so, count) := Triggered(t, rules, n - 1, f);
      if n - 1 in rules && Fires(rules[n - 1], so, f) then (Affected(so, rules[n - 1]), count + 1) else (so, count)
  }

  function AfterTriggers(e: Entry, rules: map<nat, TriggerRule>, n: nat, metrics: map<string, nat>,
                         self: Address, now: nat): Entry {
    var (t, count) := Triggered(e.token, rules, n, Facts(metrics, e.owners, now));
    if e.token.frozen || count == 0 then e
    else Rewritten(e, t.(updatedAt := now), self, "trigger_apply", now)
  }

  /** A rule fires or not regardless of what earlier rules did: whether any fires
      and how many do is decided by the token as it was. */
  lemma {:induction false} TriggersAreIndependent(t: Token, rules: map<nat, TriggerRule>, n: nat, f: Facts)
    ensures Triggered(t, rules, n, f).1 == |Firing(t, rules, n, f)|
    decreases n
  {
    if n > 0 {
      TriggersAreIndependent(t, rules, n - 1, f);
      TriggersKeep(t, rules, n - 1, f);
      OneMoreRule(t, rules, n - 1, f);
    }
  }

  /** The rules with ids below `n` that fire on the token. */
  ghost function Firing(t: Token, rules: map<nat, TriggerRule>, n: nat, f: Facts): set<nat> {
    set id: nat | id < n && id in rules && Fires(rules[id], t, f)
  }

  lemma OneMoreRule(t: Token, rules: map<nat, TriggerRule>, n: nat, f: Facts)
    ensures Firing(t, rules, n + 1, f)
         == if n in rules && Fires(rules[n], t, f) then Firing(t, rules, n, f) + {n} else Firing(t, rules, n, f)
  {
  }

  /** Triggers touch traits and the level, nothing else. */
  lemma {:induction false} TriggersKeep(t: Token, rules: map<nat, TriggerRule>, n: nat, f: Facts)
    ensures var t' := Triggered(t, rules, n, f).0;
      && t'.(stringTraits := t.stringTraits, numericTraits := t.numericTraits, level := t.level) == t
      && t.level <= t'.level
    decreases n
  {
    if n > 0 { TriggersKeep(t, rules, n - 1, f); }
  }

  /** What the firing rules with ids below `n` add to the level. */
  ghost function Bumps(t: Token, rules: map<nat, TriggerRule>, n: nat, f: Facts): nat {
    if n == 0 then 0 else
      var so := Bumps(t, rules, n - 1, f);
      if n - 1 in rules && rules[n - 1].effect == BumpLevel && Fires(rules[n - 1], t, f)
      then so + Parsed(rules[n - 1].text) else so
  }

  /** The level after all rules is the old one plus the parsed amounts of the
      firing bump rules, saturated once: the order does not matter. */
  lemma {:induction false} LevelIsBumped(t: Token, rules: map<nat, TriggerRule>, n: nat, f: Facts)
    ensures Triggered(t, rules, n, f).0.level == SatAdd(t.level, Bumps(t, rules, n, f), U32_MAX)
    decreases n
  {
    if n > 0 {
      LevelIsBumped(t, rules, n - 1, f);
      TriggersKeep(t, rules, n - 1, f);
    }
  }

  // ---- Migration ----

  datatype Migration = Migration(
    name: string, description: string, imageId: nat, externalUri: string,
    stringTraits: map<string, string>, numericTraits: map<string, nat>, level: u32, rarity: u32)

  function Migrated(e: Entry, p: Migration, schema: u32, author: Address, now: nat): Entry {
    var t := e.token;
    var t' := t.(name := p.name, description := p.description,
                 imageId := if p.imageId > 0 then p.imageId else t.imageId,
                 externalUri := p.externalUri, stringTraits := p.stringTraits, numericTraits := p.numericTraits,
                 level := if p.level > 0 then p.level else t.level,
                 rarity := if p.rarity > 0 then p.rarity else t.rarity,
                 schema := schema, updatedAt := now);
    Rewritten(e.(versions := Snapshot(e.versions, t, author, "migrate", now)), t', author, Reason(t.schema, schema),
              now)
  }

  // ---- What holds of a token's records ----

  /** Versions are numbered from 1 without gaps; the last is the current metadata
      up to the performance score. */
  ghost predicate VersionsSound(versions: seq<Version>, t: Token) {
    && |versions| >= 1
    && (forall i :: 0 <= i < |versions| ==> versions[i].number == i + 1)
    && versions[|versions| - 1].snapshot.(score := t.score) == t
  }

  /** The history starts with the mint, each record continues the one before, and
      the last one names the current owner. */
  ghost predicate OwnersSound(owners: seq<OwnerRecord>, owner: Address) {
    && |owners| >= 1 && owners[0].event == Mint && owners[|owners| - 1].owner == owner
    && (forall i :: 1 <= i < |owners| ==>
          && owners[i].event != Mint && owners[i].previous == owners[i - 1].owner
          && (owners[i].event == Burn ==> owners[i].owner == owners[i].previous))
  }

  /** A cached URI is that of the current id, level and rarity, under the base it
      was built with. */
  ghost predicate UriSound(uri: Option<string>, t: Token, base: string) {
    uri.Some? ==> uri.value == Uri(base, t.id, t.level, t.rarity)
  }

  ghost predicate EntrySound(e: Entry, id: nat, base: string) {
    && e.token.id == id
    && VersionsSound(e.versions, e.token) && OwnersSound(e.owners, e.token.owner) && UriSound(e.uri, e.token, base)
  }

  lemma RewrittenSound(e: Entry, t: Token, author: Address, reason: string, now: nat, id: nat, base: string)
    requires EntrySound(e, id, base) && t.id == id && t.owner == e.token.owner
    ensures EntrySound(Rewritten(e, t, author, reason, now), id, base)
  {
  }

  lemma MintedSound(t: Token, minter: Address, base: string, now: nat)
    ensures EntrySound(Minted(t, minter, base, now), t.id, base)
  {
  }

  lemma TransferredSound(e: Entry, to: Address, now: nat, id: nat, base: string)
    requires EntrySound(e, id, base)
    ensures EntrySound(Transferred(e, to, now), id, base)
    ensures EntrySound(Burned(e, now), id, base)
  {
  }

  lemma ScoredSound(e: Entry, score: u64, id: nat, base: string)
    requires EntrySound(e, id, base)
    ensures EntrySound(e.(token := e.token.(score := score)), id, base)
  {
  }

  lemma EvolvedSound(e: Entry, rules: map<nat, TraitRule>, n: nat, self: Address, now: nat, id: nat, base: string)
    requires EntrySound(e, id, base)
    ensures EntrySound(Evolved(e, rules, n, self, now), id, base)
  {
    BestRuleIsBest(rules, n, e.token);
  }

  lemma TriggersSound(e: Entry, rules: map<nat, TriggerRule>, n: nat, metrics: map<string, nat>,
                      self: Address, now: nat,
                      id: nat, base: string)
    requires EntrySound(e, id, base)
    ensures EntrySound(AfterTriggers(e, rules, n, metrics, self, now), id, base)
  {
    TriggersKeep(e.token, rules, n, Facts(metrics, e.owners, now));
  }

  lemma MigratedSound(e: Entry, p: Migration, schema: u32, author: Address, now: nat, id: nat, base: string)
    requires EntrySound(e, id, base)
    ensures EntrySound(Migrated(e, p, schema, author, now), id, base)
  {
  }
}
