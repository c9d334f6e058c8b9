/** What every run of the dynamic-metadata contract keeps. */
module MetadataTheorems {
  import opened Host
  import opened Sums
  import opened ImageUri
  import opened MetadataTokens
  import opened MetadataRuns
  import Runs

  /** A token's versions are numbered 1 to n, the last one being the current
      metadata except for the performance score. */
  lemma VersionsAreNumbered(w: World, id: nat)
    requires Reachable(w) && id in w.entries
    ensures var e := w.entries[id];
      && |e.versions| >= 1
      && (forall i :: 0 <= i < |e.versions| ==> e.versions[i].number == i + 1)
      && e.versions[|e.versions| - 1].snapshot.(score := e.token.score) == e.token
  {
    ReachableIsSound(w);
  }

  /** The ownership history is a chain from the mint to the current owner. */
  lemma OwnershipIsAChain(w: World, id: nat)
    requires Reachable(w) && id in w.entries
    ensures var h := w.entries[id].owners;
      && |h| >= 1 && h[0].event == Mint && h[|h| - 1].owner == w.entries[id].token.owner
      && (forall i :: 1 <= i < |h| ==> h[i].event != Mint && h[i].previous == h[i - 1].owner)
  {
    ReachableIsSound(w);
  }

  /** A cached URI always belongs to the current id, level and rarity. It is what a
      fresh build would give if and only if it was built with the base that is
      configured now. */
  lemma CachedUriIsCurrentIff(w: World, id: nat)
    requires Reachable(w) && id in w.entries && w.entries[id].uri.Some?
    ensures var e := w.entries[id];
      && e.uri.value == Uri(BaseOf(w, id), id, e.token.level, e.token.rarity)
      && (e.uri.value == FreshUri(w, e.token) <==> BaseOf(w, id) == w.config.base)
  {
    ReachableIsSound(w);
    var t := w.entries[id].token;
    if w.entries[id].uri.value == FreshUri(w, t) {
      UriInjective(BaseOf(w, id), id, t.level, t.rarity, w.config.base, id, t.level, t.rarity);
    }
  }

  /** No two tokens ever show the same cached URI, whatever bases were configured. */
  lemma CachedUrisAreDistinct(w: World, id: nat, id': nat)
    requires Reachable(w) && id != id'
    requires id in w.entries && w.entries[id].uri.Some? && id' in w.entries && w.entries[id'].uri.Some?
    ensures w.entries[id].uri != w.entries[id'].uri
  {
    CachedUriIsCurrentIff(w, id);
    CachedUriIsCurrentIff(w, id');
    var t, t' := w.entries[id].token, w.entries[id'].token;
    if w.entries[id].uri == w.entries[id'].uri {
      UriInjective(BaseOf(w, id), id, t.level, t.rarity, BaseOf(w, id'), id', t'.level, t'.rarity);
      assert false;
    }
  }

  /** Nothing is cached, or what a fresh build would give. */
  ghost predicate Current(w: World, id: nat) {
    id in w.entries && (w.entries[id].uri.Some? ==> w.entries[id].uri.value == FreshUri(w, w.entries[id].token))
  }

  /** Nothing is cached, or something built with the configured base. */
  ghost predicate BuiltNow(w: World, id: nat) {
    id in w.entries && (w.entries[id].uri.Some? ==> BaseOf(w, id) == w.config.base)
  }

  lemma CurrentIsBuiltNow(w: World, id: nat)
    requires Reachable(w)
    ensures Current(w, id) <==> BuiltNow(w, id)
  {
    if id in w.entries && w.entries[id].uri.Some? {
      CachedUriIsCurrentIff(w, id);
    }
  }

  /** The URI stays as it is cached, or it goes, or it is built anew. */
  lemma UriAfter(w: World, c: Call)
    requires IsTokenCall(c) && c.id in w.entries
    ensures var uri := EntryAfter(w, c).uri;
      uri == w.entries[c.id].uri || uri.None? || (c.GetUri? && w.entries[c.id].uri.None?)
  {
  }

  lemma TouchedStaysBuilt(w: World, c: Call, w': World, id: nat)
    requires IsTokenCall(c) && TouchesOne(w, c, w') && BuiltNow(w, id)
    ensures BuiltNow(w', id)
  {
    UriAfter(w, c);
  }

  lemma BuiltNowIff(w: World, c: Call, id: nat)
    requires Reachable(w) && BuiltNow(w, id)
    ensures BuiltNow(Step(w, c), id) <==>
      !(c.SetBase? && Next(w, c).Some? && c.base != w.config.base && w.entries[id].uri.Some?)
  {
    if Next(w, c).Some? {
      if IsTokenCall(c) {
        TokenCallTouchesOne(w, c);
        TouchedStaysBuilt(w, c, Next(w, c).value, id);
      } else if c.MintToken? {
        assert id < w.nextId by { ReachableIsSound(w); }
      } else {
        OtherCallsKeepTokens(w, c);
      }
    }
  }

  /** Changing the base is documented to invalidate all URIs. It invalidates none:
      a current URI becomes stale exactly when the base is changed while the URI
      is cached, and no other call makes it so. */
  lemma UriStaysCurrentIff(w: World, c: Call, id: nat)
    requires Reachable(w) && Current(w, id)
    ensures Current(Step(w, c), id) <==>
      !(c.SetBase? && Next(w, c).Some? && c.base != w.config.base && w.entries[id].uri.Some?)
  {
    StepIsReachable(w, c);
    CurrentIsBuiltNow(w, id);
    CurrentIsBuiltNow(Step(w, c), id);
    BuiltNowIff(w, c, id);
  }

  lemma StepIsReachable(w: World, c: Call)
    requires Reachable(w)
    ensures Reachable(Step(w, c))
  {
    if Next(w, c).Some? { NextIsReachable(w, c); }
  }

  /** So over any run that sets no other base a current URI stays current. */
  lemma {:induction false} UriStaysCurrent(w: World, calls: seq<Call>, id: nat)
    requires Reachable(w) && Current(w, id)
    requires forall c :: c in calls && c.SetBase? ==> c.base == w.config.base
    ensures Current(Runs.Run(Step, w, calls), id)
    decreases |calls|
  {
    if calls != [] {
      var c := calls[0];
      assert c in calls && forall d :: d in calls[1..] ==> d in calls;
      UriStaysCurrentIff(w, c, id);
      StepIsReachable(w, c);
      BaseAfterStep(w, c);
      UriStaysCurrent(Step(w, c), calls[1..], id);
    }
  }

  lemma BaseAfterStep(w: World, c: Call)
    ensures Step(w, c).config.base == if c.SetBase? && Next(w, c).Some? then c.base else w.config.base
  {
  }

  /** Every configured base leaves room for the longest URI, so reading a token's
      URI never fails. */
  lemma UrisNeverOverflow(w: World, id: nat)
    requires Reachable(w)
    ensures Fits(w.config.base)
    ensures AfterGetUri(w, id).Some? <==> id in w.entries
  {
    ReachableIsSound(w);
  }

  // ---- Histories ----

  lemma MeasuredGrows(e: Entry, delta: nat, rules: Rules, metrics: map<string, nat>, self: Address, now: nat)
    ensures var e' := Measured(e, delta, rules, metrics, self, now); e.versions <= e'.versions && e.owners == e'.owners
  {
    var evolved := Evolved(Scored(e, delta), rules.traits, rules.nextTrait, self, now);
    assert e.versions <= evolved.versions && evolved.owners == e.owners;
  }

  lemma EntryAfterGrows(w: World, c: Call)
    requires IsTokenCall(c) && c.id in w.entries
    ensures var e, e' := w.entries[c.id], EntryAfter(w, c); e.versions <= e'.versions && e.owners <= e'.owners
  {
    if c.SetMetric? || c.AddMetric? {
      var metrics := WithMetric(w.metrics, c.id, c.key, NewMetric(w, c));
      MeasuredGrows(w.entries[c.id], DeltaOf(w, c), w.rules, MetricsOf(metrics, c.id), w.config.self, c.now);
    }
  }

  /** No call removes or changes a recorded version or ownership event. */
  lemma HistoriesOnlyGrow(w: World, c: Call, id: nat)
    requires Reachable(w) && id in w.entries
    ensures id in Step(w, c).entries
    ensures w.entries[id].versions <= Step(w, c).entries[id].versions
    ensures w.entries[id].owners <= Step(w, c).entries[id].owners
  {
    if Next(w, c).Some? {
      if IsTokenCall(c) {
        TokenCallTouchesOne(w, c);
        EntryAfterGrows(w, c);
      } else if c.MintToken? {
        assert id < w.nextId by { ReachableIsSound(w); }
      } else {
        OtherCallsKeepTokens(w, c);
      }
    }
  }

  // ---- Freezing ----

  /** What freezing is meant to protect. */
  datatype Appearance = Appearance(
    name: string, description: string, imageId: nat, externalUri: string,
    stringTraits: map<string, string>, numericTraits: map<string, nat>, level: nat, rarity: nat)

  function AppearanceOf(t: Token): Appearance {
    Appearance(t.name, t.description, t.imageId, t.externalUri, t.stringTraits, t.numericTraits, t.level, t.rarity)
  }

  lemma FrozenEntryAfter(w: World, c: Call, id: nat)
    requires IsTokenCall(c) && Next(w, c).Some? && c.id in w.entries && id in w.entries && w.entries[id].token.frozen
    ensures c.id == id ==>
      && (c.Migrate? || AppearanceOf(EntryAfter(w, c).token) == AppearanceOf(w.entries[id].token))
      && (c.Freeze? || EntryAfter(w, c).token.frozen)
  {
  }

  lemma TouchedIsLocked(w: World, c: Call, w': World, id: nat)
    requires IsTokenCall(c) && Next(w, c).Some? && TouchesOne(w, c, w')
    requires id in w.entries && w.entries[id].token.frozen
    ensures id in w'.entries
    ensures (c.Migrate? && c.id == id) || AppearanceOf(w'.entries[id].token) == AppearanceOf(w.entries[id].token)
    ensures (c.Freeze? && c.id == id) || w'.entries[id].token.frozen
  {
    FrozenEntryAfter(w, c, id);
  }

  /** A frozen token keeps its appearance through every call except a migration,
      and stays frozen until it is unfrozen. */
  lemma FrozenIsLocked(w: World, c: Call, id: nat)
    requires Reachable(w) && id in w.entries && w.entries[id].token.frozen
    ensures id in Step(w, c).entries
    ensures (c.Migrate? && c.id == id)
         || AppearanceOf(Step(w, c).entries[id].token) == AppearanceOf(w.entries[id].token)
    ensures (c.Freeze? && c.id == id) || Step(w, c).entries[id].token.frozen
  {
    if Next(w, c).Some? {
      if IsTokenCall(c) {
        TokenCallTouchesOne(w, c);
        TouchedIsLocked(w, c, Next(w, c).value, id);
      } else if c.MintToken? {
        assert id < w.nextId by { ReachableIsSound(w); }
      } else {
        OtherCallsKeepTokens(w, c);
      }
    }
  }

  /** What reading the URI returns. */
  function ShownUri(w: World, id: nat): string
    requires id in w.entries
  {
    if w.entries[id].uri.Some? then w.entries[id].uri.value else FreshUri(w, w.entries[id].token)
  }

  /** The URI shown for a frozen token is locked less than its appearance: it
      changes exactly when the base changes while nothing is cached, when a stale
      URI is dropped by freezing once more or unfreezing, and when a migration
      drops a stale URI or changes level or rarity. */
  lemma FrozenUriChangesIff(w: World, c: Call, id: nat)
    requires Reachable(w) && id in w.entries && w.entries[id].token.frozen
    ensures id in Step(w, c).entries
    ensures var e := w.entries[id];
      ShownUri(Step(w, c), id) != ShownUri(w, id) <==>
      (Next(w, c).Some? &&
       match c
       case SetBase(_, base) => base != w.config.base && e.uri.None?
       case Freeze(_, i, _, _) => i == id && !BuiltNow(w, id)
       case Migrate(_, i, _, p, _) =>
         i == id && (!BuiltNow(w, id) || (p.level > 0 && p.level != e.token.level)
                     || (p.rarity > 0 && p.rarity != e.token.rarity))
       case _ => false)
  {
    FrozenIsLocked(w, c, id);
    if Next(w, c).Some? {
      ShownIsBuilt(w, id);
      StepIsReachable(w, c);
      ShownIsBuilt(Step(w, c), id);
      var t, t' := w.entries[id].token, Step(w, c).entries[id].token;
      if ShownUri(Step(w, c), id) == ShownUri(w, id) {
        UriInjective(ShownBase(w, id), id, t.level, t.rarity, ShownBase(Step(w, c), id), id, t'.level, t'.rarity);
      }
      ShownBaseAfter(w, c, id);
      FrozenNumbersAfter(w, c, id);
    }
  }

  lemma FrozenNumbersAfter(w: World, c: Call, id: nat)
    requires Reachable(w) && id in w.entries && w.entries[id].token.frozen && Next(w, c).Some?
    ensures id in Step(w, c).entries
    ensures var t, t' := w.entries[id].token, Step(w, c).entries[id].token;
      && t'.level == (if c.Migrate? && c.id == id && c.p.level > 0 then c.p.level else t.level)
      && t'.rarity == (if c.Migrate? && c.id == id && c.p.rarity > 0 then c.p.rarity else t.rarity)
  {
    FrozenIsLocked(w, c, id);
    if c.Migrate? && c.id == id {
      TokenCallTouchesOne(w, c);
    }
  }

  /** The base of the shown URI. */
  function ShownBase(w: World, id: nat): string
    requires id in w.entries
  {
    if w.entries[id].uri.Some? then BaseOf(w, id) else w.config.base
  }

  lemma ShownIsBuilt(w: World, id: nat)
    requires Reachable(w) && id in w.entries
    ensures var t := w.entries[id].token; ShownUri(w, id) == Uri(ShownBase(w, id), id, t.level, t.rarity)
  {
    ReachableIsSound(w);
  }

  lemma FrozenUriAfter(w: World, c: Call)
    requires IsTokenCall(c) && Next(w, c).Some? && c.id in w.entries && w.entries[c.id].token.frozen
    ensures EntryAfter(w, c).uri
         == if c.Freeze? || c.Migrate? then None
            else if c.GetUri? && w.entries[c.id].uri.None? then Some(FreshUri(w, w.entries[c.id].token))
            else w.entries[c.id].uri
  {
  }

  lemma TouchedShownBase(w: World, c: Call, w': World, id: nat)
    requires IsTokenCall(c) && Next(w, c).Some? && TouchesOne(w, c, w')
    requires id in w.entries && w.entries[id].token.frozen
    ensures id in w'.entries
    ensures ShownBase(w', id) == if (c.Freeze? || c.Migrate?) && c.id == id then w.config.base else ShownBase(w, id)
  {
    if c.id == id { FrozenUriAfter(w, c); }
  }

  lemma ShownBaseAfter(w: World, c: Call, id: nat)
    requires Reachable(w) && id in w.entries && w.entries[id].token.frozen && Next(w, c).Some?
    requires id in Next(w, c).value.entries
    ensures ShownBase(Next(w, c).value, id)
         == if c.SetBase? && w.entries[id].uri.None? then c.base
            else if (c.Freeze? || c.Migrate?) && c.id == id then w.config.base
            else ShownBase(w, id)
  {
    if IsTokenCall(c) {
      TokenCallTouchesOne(w, c);
      TouchedShownBase(w, c, Next(w, c).value, id);
    } else if c.MintToken? {
      assert id < w.nextId by { ReachableIsSound(w); }
    } else {
      OtherCallsKeepTokens(w, c);
      BaseAfterStep(w, c);
    }
  }

  function Thawed(w: World, id: nat): World
    requires id in w.entries
  {
    w.(entries := w.entries[id := w.entries[id].(token := w.entries[id].token.(frozen := false))])
  }

  /** Freezing does not matter to a migration: it is accepted exactly if it would be
      for the thawed token, which for the configured schema is always but for the
      caller and the number of traits, and it gives the token every appearance it
      would give the thawed one. The token stays frozen. */
  lemma MigrationIgnoresFreezing(w: World, caller: Address, id: nat, schema: u32, p: Migration, now: nat)
    requires Reachable(w) && id in w.entries && w.entries[id].token.frozen
    ensures var after := AfterMigrate(w, caller, id, schema, p, now);
      var thawed := AfterMigrate(Thawed(w, id), caller, id, schema, p, now);
      && (after.Some? <==> thawed.Some?)
      && (schema == w.config.schema ==> (after.Some? <==>
            caller == w.config.migrator && |p.stringTraits| <= MAX_TRAITS && |p.numericTraits| <= MAX_TRAITS))
      && (after.Some? ==>
            var t, t' := w.entries[id].token, after.value.entries[id].token;
            && AppearanceOf(t') == AppearanceOf(thawed.value.entries[id].token)
            && AppearanceOf(t') == Appearance(
                 p.name, p.description, if p.imageId > 0 then p.imageId else t.imageId, p.externalUri,
                 p.stringTraits, p.numericTraits,
                 if p.level > 0 then p.level else t.level, if p.rarity > 0 then p.rarity else t.rarity)
            && t'.frozen)
  {
    ReachableIsSound(w);
  }

  // ---- Minting ----

  /** The first ownership record names the author of the first version, who minted,
      as the owner before. */
  ghost predicate MintRecorded(e: Entry) {
    |e.owners| > 0 && |e.versions| > 0 && e.owners[0].previous == e.versions[0].author
  }

  ghost predicate MintsRecorded(w: World) {
    forall id :: id in w.entries ==> MintRecorded(w.entries[id])
  }

  lemma TouchedKeepsMints(w: World, c: Call, w': World)
    requires MintsRecorded(w) && IsTokenCall(c) && TouchesOne(w, c, w')
    ensures MintsRecorded(w')
  {
    EntryAfterGrows(w, c);
    GrownKeepsMint(w.entries[c.id], EntryAfter(w, c));
  }

  lemma GrownKeepsMint(e: Entry, e': Entry)
    requires MintRecorded(e) && e.versions <= e'.versions && e.owners <= e'.owners
    ensures MintRecorded(e')
  {
  }

  lemma MintKeepsMints(w: World, minter: Address, t: Token, now: nat)
    requires MintsRecorded(w) && AfterMint(w, minter, t, now).Some?
    ensures MintsRecorded(AfterMint(w, minter, t, now).value)
  {
  }

  lemma StepKeepsMints(w: World, c: Call)
    requires MintsRecorded(w)
    ensures MintsRecorded(Step(w, c))
  {
    if Next(w, c).Some? {
      if IsTokenCall(c) {
        TokenCallTouchesOne(w, c);
        TouchedKeepsMints(w, c, Next(w, c).value);
      } else if c.MintToken? {
        MintKeepsMints(w, c.minter, c.t, c.now);
      } else {
        OtherCallsKeepTokens(w, c);
      }
    }
  }

  /** The record of a mint is documented to name the owner as the owner before. It
      names the minter, so it does that exactly if the minter minted the token for
      itself. */
  lemma MintRecordNamesOwnerIff(w: World, id: nat)
    requires Reachable(w) && id in w.entries
    ensures var e := w.entries[id];
      && |e.owners| > 0 && |e.versions| > 0
      && (e.owners[0].previous == e.owners[0].owner <==> e.versions[0].author == e.owners[0].owner)
  {
    var config :| MayInitialize(config) && Runs.ReachableFrom(Step, Start(config), w);
    forall v, c | MintsRecorded(v) ensures MintsRecorded(Step(v, c)) {
      StepKeepsMints(v, c);
    }
    Runs.ReachableKeeps(Step, MintsRecorded, Start(config), w);
    assert MintRecorded(w.entries[id]);
  }

  // ---- Burning ----

  lemma BurnedAfter(w: World, c: Call)
    requires IsTokenCall(c) && c.id in w.entries && IsBurned(w.entries[c.id].owners)
    ensures IsBurned(EntryAfter(w, c).owners) <==> !c.TransferToken?
  {
    if c.SetMetric? || c.AddMetric? { EntryAfterKeepsOwners(w, c); }
  }

  lemma EntryAfterKeepsOwners(w: World, c: Call)
    requires (c.SetMetric? || c.AddMetric?) && c.id in w.entries
    ensures EntryAfter(w, c).owners == w.entries[c.id].owners
  {
    var metrics := WithMetric(w.metrics, c.id, c.key, NewMetric(w, c));
    MeasuredGrows(w.entries[c.id], DeltaOf(w, c), w.rules, MetricsOf(metrics, c.id), w.config.self, c.now);
  }

  /** Burning is not final: through any call a burnt token stays burnt exactly
      unless that call transfers it, which its owner can do whenever the contract
      is not paused. */
  lemma BurnIsNotFinal(w: World, c: Call, id: nat, to: Address, now: nat)
    requires Reachable(w) && id in w.entries && IsBurned(w.entries[id].owners)
    ensures id in Step(w, c).entries
    ensures !IsBurned(Step(w, c).entries[id].owners) <==> c.TransferToken? && c.id == id && Next(w, c).Some?
    ensures AfterTransfer(w, w.entries[id].token.owner, to, id, now).Some? <==> !w.config.paused
  {
    if Next(w, c).Some? {
      if IsTokenCall(c) {
        TokenCallTouchesOne(w, c);
        if c.id == id { BurnedAfter(w, c); }
      } else if c.MintToken? {
        assert id < w.nextId by { ReachableIsSound(w); }
      } else {
        OtherCallsKeepTokens(w, c);
      }
    }
  }

  // ---- Scores ----

  ghost function MetricSum(metrics: Metrics, id: nat): int {
    Total(MetricsOf(metrics, id))
  }

  lemma MetricSumAfter(metrics: Metrics, id: nat, key: string, value: nat)
    ensures MetricSum(WithMetric(metrics, id, key, value), id)
         == MetricSum(metrics, id) - MetricOf(metrics, id, key) + value
  {
    TotalUpdate(MetricsOf(metrics, id), key, value);
  }

  lemma MeasuredScore(e: Entry, delta: nat, rules: Rules, metrics: map<string, nat>, self: Address, now: nat)
    ensures Measured(e, delta, rules, metrics, self, now).token.score == SatAdd(e.token.score, delta, U64_MAX)
  {
    var evolved := Evolved(Scored(e, delta), rules.traits, rules.nextTrait, self, now);
    TriggersKeep(evolved.token, rules.triggers, rules.nextTrigger, Facts(metrics, evolved.owners, now));
  }

  /** The performance score keeps mirroring the sum of the metrics exactly when
      the new value is not below the old one and the sum does not overflow. */
  lemma MirrorKeptIff(w: World, oracle: Address, id: nat, key: string, value: nat, now: nat)
    requires AfterSetMetric(w, oracle, id, key, value, now).Some?
    requires w.entries[id].token.score == MetricSum(w.metrics, id)
    ensures var w' := AfterSetMetric(w, oracle, id, key, value, now).value;
      w'.entries[id].token.score == MetricSum(w'.metrics, id) <==>
        (value >= MetricOf(w.metrics, id, key) && MetricSum(w'.metrics, id) <= U64_MAX)
  {
    var was := MetricOf(w.metrics, id, key);
    var metrics := WithMetric(w.metrics, id, key, value);
    MetricSumAfter(w.metrics, id, key, value);
    MeasuredScore(w.entries[id], if value < was then 0 else value - was, w.rules, MetricsOf(metrics, id),
                  w.config.self, now);
  }

  // ---- Scores over runs ----

  /** Everything ever added to the score is still there, up to saturation, and the
      metrics hold it too, up to what they lost. */
  ghost predicate ScoreSound(w: World, id: nat)
    requires id in w.entries
  {
    && w.entries[id].token.score == SatAdd(Added(w, id), 0, U64_MAX)
    && MetricSum(w.metrics, id) == Added(w, id) - Get(w.lost, id)
    && Get(w.lost, id) >= 0
  }

  ghost function Added(w: World, id: nat): nat {
    if Get(w.raised, id) < 0 then 0 else Get(w.raised, id)
  }

  ghost predicate ScoresSound(w: World) {
    && (forall id :: id in w.metrics || id in w.raised || id in w.lost ==> id in w.entries)
    && (forall id :: id in w.raised ==> w.raised[id] >= 0)
    && (forall id :: id in w.entries ==> ScoreSound(w, id))
  }

  lemma ScoreAfter(w: World, c: Call)
    requires IsTokenCall(c) && c.id in w.entries
    ensures EntryAfter(w, c).token.score
         == if c.SetMetric? || c.AddMetric? then SatAdd(w.entries[c.id].token.score, DeltaOf(w, c), U64_MAX)
            else w.entries[c.id].token.score
  {
    var e := w.entries[c.id];
    if c.SetMetric? || c.AddMetric? {
      var metrics := WithMetric(w.metrics, c.id, c.key, NewMetric(w, c));
      MeasuredScore(e, DeltaOf(w, c), w.rules, MetricsOf(metrics, c.id), w.config.self, c.now);
    } else if c.Fire? {
      TriggersKeep(e.token, w.rules.triggers, w.rules.nextTrigger, Facts(MetricsOf(w.metrics, c.id), e.owners, c.now));
    }
  }

  /** What a measurement does to the numbers behind the scores. */
  ghost predicate NumbersMove(w: World, w': World, c: Call)
    requires c.SetMetric? || c.AddMetric?
  {
    && w'.metrics == WithMetric(w.metrics, c.id, c.key, NewMetric(w, c))
    && w'.raised == w.raised[c.id := Get(w.raised, c.id) + DeltaOf(w, c)]
    && w'.lost == w.lost[c.id := Get(w.lost, c.id) + MetricOf(w.metrics, c.id, c.key) + DeltaOf(w, c) - NewMetric(w, c)]
  }

  lemma SettingMovesNumbers(w: World, c: Call)
    requires c.SetMetric? && Next(w, c).Some?
    ensures NumbersMove(w, Next(w, c).value, c)
  {
  }

  lemma AddingMovesNumbers(w: World, c: Call)
    requires c.AddMetric? && Next(w, c).Some?
    ensures NumbersMove(w, Next(w, c).value, c)
  {
  }

  lemma MeasureMovesNumbers(w: World, c: Call)
    requires (c.SetMetric? || c.AddMetric?) && Next(w, c).Some?
    ensures NumbersMove(w, Next(w, c).value, c)
  {
    if c.SetMetric? { SettingMovesNumbers(w, c); } else { AddingMovesNumbers(w, c); }
  }

  lemma OtherCallsKeepNumbers(w: World, c: Call)
    requires IsTokenCall(c) && !c.SetMetric? && !c.AddMetric? && Next(w, c).Some?
    ensures var w' := Next(w, c).value; w'.metrics == w.metrics && w'.raised == w.raised && w'.lost == w.lost
  {
  }

  lemma MeasuredScoreSound(w: World, w': World, c: Call)
    requires ScoresSound(w) && (c.SetMetric? || c.AddMetric?) && c.id in w.entries && NumbersMove(w, w', c)
    requires c.id in w'.entries
    requires w'.entries[c.id].token.score == SatAdd(w.entries[c.id].token.score, DeltaOf(w, c), U64_MAX)
    ensures ScoreSound(w', c.id)
  {
    assert ScoreSound(w, c.id);
    MetricSumAfter(w.metrics, c.id, c.key, NewMetric(w, c));
  }

  lemma MeasureKeepsScores(w: World, w': World, c: Call, e: Entry)
    requires ScoresSound(w) && (c.SetMetric? || c.AddMetric?) && c.id in w.entries && NumbersMove(w, w', c)
    requires w'.entries == w.entries[c.id := e]
    requires e.token.score == SatAdd(w.entries[c.id].token.score, DeltaOf(w, c), U64_MAX)
    ensures ScoresSound(w')
  {
    MeasuredScoreSound(w, w', c);
    forall id | id in w'.entries && id != c.id ensures ScoreSound(w', id) {
      UnmeasuredScoreSound(w, w', c, id);
    }
    assert forall id :: id in w'.raised ==> w'.raised[id] >= 0 by {
      assert Get(w.raised, c.id) >= 0;
    }
  }

  lemma UnmeasuredScoreSound(w: World, w': World, c: Call, id: nat)
    requires ScoresSound(w) && (c.SetMetric? || c.AddMetric?) && NumbersMove(w, w', c) && id != c.id
    requires id in w.entries && id in w'.entries && w'.entries[id] == w.entries[id]
    ensures ScoreSound(w', id)
  {
    assert ScoreSound(w, id);
    assert MetricSum(w'.metrics, id) == MetricSum(w.metrics, id);
  }

  lemma OtherKeepsScores(w: World, w': World)
    requires ScoresSound(w) && w'.metrics == w.metrics && w'.raised == w.raised && w'.lost == w.lost
    requires w.entries.Keys <= w'.entries.Keys
    requires forall k :: k in w.entries ==> w'.entries[k].token.score == w.entries[k].token.score
    requires forall k :: k in w'.entries && k !in w.entries ==> w'.entries[k].token.score == 0
    ensures ScoresSound(w')
  {
    forall k | k in w'.entries ensures ScoreSound(w', k) {
      if k in w.entries {
        assert ScoreSound(w, k);
      } else {
        assert MetricsOf(w'.metrics, k) == map[];
      }
    }
  }

  lemma TokenCallKeepsScores(w: World, c: Call)
    requires ScoresSound(w) && IsTokenCall(c) && Next(w, c).Some?
    ensures ScoresSound(Next(w, c).value)
  {
    var w' := Next(w, c).value;
    TokenCallTouchesOne(w, c);
    if c.SetMetric? || c.AddMetric? {
      MeasureMovesNumbers(w, c);
      ScoreAfter(w, c);
      MeasureKeepsScores(w, w', c, EntryAfter(w, c));
    } else {
      OtherCallsKeepNumbers(w, c);
      ScoreAfter(w, c);
      OtherKeepsScores(w, w');
    }
  }

  lemma MintKeepsScores(w: World, minter: Address, t: Token, now: nat)
    requires Sound(w) && ScoresSound(w) && AfterMint(w, minter, t, now).Some?
    ensures ScoresSound(AfterMint(w, minter, t, now).value)
  {
    OtherKeepsScores(w, AfterMint(w, minter, t, now).value);
  }

  lemma StepKeepsScores(w: World, c: Call)
    requires Sound(w) && ScoresSound(w)
    ensures ScoresSound(Step(w, c))
  {
    if Next(w, c).Some? {
      if IsTokenCall(c) {
        TokenCallKeepsScores(w, c);
      } else if c.MintToken? {
        MintKeepsScores(w, c.minter, c.t, c.now);
      } else {
        SettingsKeepScores(w, c);
      }
    }
  }

  lemma SettingsKeepScores(w: World, c: Call)
    requires ScoresSound(w) && !IsTokenCall(c) && !c.MintToken? && Next(w, c).Some?
    ensures ScoresSound(Next(w, c).value)
  {
    OtherCallsKeepTokens(w, c);
    OtherKeepsScores(w, Next(w, c).value);
  }

  lemma ReachableScoresAreSound(w: World)
    requires Reachable(w)
    ensures ScoresSound(w)
  {
    var config :| MayInitialize(config) && Runs.ReachableFrom(Step, Start(config), w);
    var inv := (v: World) => Sound(v) && ScoresSound(v);
    forall v, c | inv(v) ensures inv(Step(v, c)) {
      StepKeepsSound(v, c);
      StepKeepsScores(v, c);
    }
    Runs.ReachableKeeps(Step, inv, Start(config), w);
  }

  /** The score mirrors the sum of the metrics if and only if what the metrics lost,
      by being lowered or cut off, is exactly what the score was cut off by. As
      long as the score was never cut off, that is if and only if no metric was
      ever lowered. */
  lemma ScoreMirrorsIff(w: World, id: nat)
    requires Reachable(w) && id in w.entries
    ensures var cutOff := if Added(w, id) > U64_MAX then Added(w, id) - U64_MAX else 0;
      && (w.entries[id].token.score == MetricSum(w.metrics, id) <==> Get(w.lost, id) == cutOff)
      && (Added(w, id) <= U64_MAX ==> (w.entries[id].token.score == MetricSum(w.metrics, id) <==> Get(w.lost, id) == 0))
  {
    ReachableScoresAreSound(w);
    assert ScoreSound(w, id);
  }

  /** The call lowers a metric of the token, or cuts off what is added to one. */
  predicate Loses(w: World, c: Call, id: nat) {
    && (c.SetMetric? || c.AddMetric?) && c.id == id && Next(w, c).Some?
    && (if c.SetMetric? then c.value < MetricOf(w.metrics, id, c.key)
        else MetricOf(w.metrics, id, c.key) + c.value > U64_MAX)
  }

  /** No call of the run does. */
  predicate Lossless(w: World, calls: seq<Call>, id: nat)
    decreases |calls|
  {
    calls == [] || (!Loses(w, calls[0], id) && Lossless(Step(w, calls[0]), calls[1..], id))
  }

  lemma StepLoses(w: World, c: Call, id: nat)
    requires Reachable(w)
    ensures Get(Step(w, c).lost, id) >= Get(w.lost, id)
    ensures Get(Step(w, c).lost, id) == Get(w.lost, id) <==> !Loses(w, c, id)
  {
    if Next(w, c).Some? {
      if c.SetMetric? || c.AddMetric? {
        MeasureMovesNumbers(w, c);
      } else if IsTokenCall(c) {
        OtherCallsKeepNumbers(w, c);
      } else if !c.MintToken? {
        OtherCallsKeepTokens(w, c);
      }
    }
  }

  lemma {:induction false} RunLoses(w: World, calls: seq<Call>, id: nat)
    requires Reachable(w)
    ensures var v := Runs.Run(Step, w, calls);
      Get(v.lost, id) >= Get(w.lost, id) && (Get(v.lost, id) == Get(w.lost, id) <==> Lossless(w, calls, id))
    decreases |calls|
  {
    if calls != [] {
      StepIsReachable(w, calls[0]);
      StepLoses(w, calls[0], id);
      RunLoses(Step(w, calls[0]), calls[1..], id);
    }
  }

  /** In any run in which the score is never cut off, it mirrors the sum of the
      metrics in the end exactly if no call lowered one or cut one off. */
  lemma ScoreMirrorsOverRunIff(config: Config, calls: seq<Call>, id: nat)
    requires MayInitialize(config)
    requires var w := Runs.Run(Step, Start(config), calls); id in w.entries && Added(w, id) <= U64_MAX
    ensures var w := Runs.Run(Step, Start(config), calls);
      w.entries[id].token.score == MetricSum(w.metrics, id) <==> Lossless(Start(config), calls, id)
  {
    var w := Runs.Run(Step, Start(config), calls);
    StartIsReachable(config);
    RunLoses(Start(config), calls, id);
    ScoreMirrorsIff(w, id);
  }

  /** The score is never below the sum of the metrics, unless it is saturated. */
  lemma ScoresCoverMetrics(w: World, id: nat)
    requires Reachable(w) && id in w.entries
    ensures w.entries[id].token.score >= MetricSum(w.metrics, id) || w.entries[id].token.score >= U64_MAX
  {
    ReachableScoresAreSound(w);
    assert ScoreSound(w, id);
  }
}
