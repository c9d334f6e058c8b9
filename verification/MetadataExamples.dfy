/** Runs in which the dynamic-metadata contract departs from its documentation. */
module MetadataExamples {
  import opened Host
  import opened Sums
  import opened ImageUri
  import opened MetadataTokens
  import opened MetadataRuns
  import opened MetadataTheorems

  /** A token as it is minted, with nothing on it. */
  function Plain(owner: Address): Token {
    Token(1, owner, "", "", 0, "", map[], map[], 1, 1, 0, 1, 0, 0, false)
  }

  function Settings(admin: Address): Config {
    Config(admin, admin, admin, admin, "a", 1, false)
  }

  /** The first token of a fresh contract whose administrator holds every role. */
  lemma Mints(admin: Address, owner: Address) returns (w: World)
    ensures Reachable(w) && w.config == Settings(admin) && w.rules == Rules(map[], 1, map[], 1)
    ensures 1 in w.entries && w.entries[1] == Minted(Plain(owner), owner, "a", 0) && BaseOf(w, 1) == "a"
    ensures w.metrics == map[] && w.raised == map[] && w.lost == map[]
  {
    var start := Start(Settings(admin));
    StartIsReachable(Settings(admin));
    var c := MintToken(owner, Plain(owner), 0);
    NextIsReachable(start, c);
    w := Next(start, c).value;
  }

  /** Another base does not reach the URI that is cached already. */
  lemma StaleUriIsReachable(admin: Address)
    ensures exists w :: Reachable(w) && 1 in w.entries && w.config.base == "b"
                     && w.entries[1].uri == Some(Uri("a", 1, 1, 1)) && !Current(w, 1)
  {
    var w := Mints(admin, admin);
    w := SetsBase(w);
    CurrentIsBuiltNow(w, 1);
    assert !Current(w, 1);
  }

  /** A token whose mint record names another owner before than its owner. */
  lemma MintedForAnother(admin: Address, alice: Address, bob: Address)
    requires alice != bob
    ensures exists w :: Reachable(w) && 1 in w.entries && w.entries[1].owners == [OwnerRecord(bob, Mint, 0, alice)]
  {
    var start := Start(Settings(admin));
    StartIsReachable(Settings(admin));
    var c := MintToken(alice, Plain(bob), 0);
    NextIsReachable(start, c);
    var w := Next(start, c).value;
    assert w.entries[1].owners == [OwnerRecord(bob, Mint, 0, alice)];
  }

  lemma Freezes(w: World) returns (w': World)
    requires Reachable(w) && 1 in w.entries
    ensures Reachable(w') && w'.config == w.config && 1 in w'.entries && w'.entries[1].uri == None
    ensures w'.entries[1].token == w.entries[1].token.(frozen := true, updatedAt := 0)
    ensures w'.entries[1].versions == Snapshot(w.entries[1].versions, w'.entries[1].token, w.config.admin, "freeze", 0)
  {
    var c := Freeze(w.config.admin, 1, true, 0);
    NextIsReachable(w, c);
    w' := Next(w, c).value;
  }

  lemma SetsBase(w: World) returns (w': World)
    requires Reachable(w)
    ensures Reachable(w') && w' == w.(config := w.config.(base := "b"))
  {
    NextIsReachable(w, SetBase(w.config.admin, "b"));
    w' := Next(w, SetBase(w.config.admin, "b")).value;
  }

  /** A frozen token shows another URI after a call that changes the base. */
  lemma FrozenUriMoves(admin: Address)
    ensures exists w, c :: Reachable(w) && 1 in w.entries && w.entries[1].token.frozen
                        && 1 in Step(w, c).entries && ShownUri(Step(w, c), 1) != ShownUri(w, 1)
  {
    var w := Mints(admin, admin);
    w := Freezes(w);
    var c := SetBase(admin, "b");
    FrozenUriChangesIff(w, c, 1);
    assert 1 in Step(w, c).entries && ShownUri(Step(w, c), 1) != ShownUri(w, 1);
  }

  lemma Transfers(w: World, to: Address) returns (w': World)
    requires Reachable(w) && 1 in w.entries && !w.config.paused
    ensures Reachable(w') && w' == w.(entries := w.entries[1 := Transferred(w.entries[1], to, 0)])
  {
    NextIsReachable(w, TransferToken(w.entries[1].token.owner, to, 1, 0));
    w' := w.(entries := w.entries[1 := Transferred(w.entries[1], to, 0)]);
  }

  const VETERANS := TriggerRule(OnOwnerCount, "", 3, AddTrait, "veteran", "yes")

  /** The only rule asks for three owners; the token has had two and carries what
      the rule gives. */
  ghost predicate FiredEarly(w: World, alice: Address, bob: Address) {
    && Reachable(w) && 1 in w.entries && w.rules.triggers == map[1 := VETERANS]
    && OwnersSeen(w.entries[1].owners) == {alice, bob}
    && w.entries[1].token.stringTraits == map["veteran" := "yes"]
  }

  /** Given away and given back, a token has had two owners and counts three: a
      rule for three owners is applied to it. */
  lemma ReturningOwnerFiresRule(admin: Address, alice: Address, bob: Address)
    requires alice != bob
    ensures exists w :: FiredEarly(w, alice, bob)
  {
    var w := ComesBack(admin, alice, bob);
    w := AddsVeterans(w);
    w := Applies(w);
    assert FiredEarly(w, alice, bob);
  }

  lemma ComesBack(admin: Address, alice: Address, bob: Address) returns (w: World)
    requires alice != bob
    ensures Reachable(w) && w.config == Settings(admin) && w.rules == Rules(map[], 1, map[], 1) && 1 in w.entries
    ensures !w.entries[1].token.frozen && w.entries[1].token.stringTraits == map[]
    ensures OwnerEvents(w.entries[1].owners) == 3 && OwnersSeen(w.entries[1].owners) == {alice, bob}
  {
    w := Mints(admin, alice);
    w := Transfers(w, bob);
    w := Transfers(w, alice);
    var a, b := OwnerRecord(alice, Mint, 0, alice), OwnerRecord(bob, Transfer, 0, alice);
    var c := OwnerRecord(alice, Transfer, 0, bob);
    assert w.entries[1].owners == [a, b, c];
    ThreeEvents([a, b, c]);
    TwoSeen(a, b, c);
  }

  lemma TwoSeen(a: OwnerRecord, b: OwnerRecord, c: OwnerRecord)
    requires a.event != Burn && b.event != Burn && c.event != Burn && a.owner == c.owner
    ensures OwnersSeen([a, b, c]) == {a.owner, b.owner}
  {
    assert a in [a, b, c] && b in [a, b, c];
  }

  lemma AddsVeterans(w: World) returns (w': World)
    requires Reachable(w) && w.rules == Rules(map[], 1, map[], 1)
    ensures Reachable(w') && w' == w.(rules := Rules(map[], 1, map[1 := VETERANS], 2))
  {
    var c := AddTriggerRule(w.config.admin, "ownership_count", "", 3, "add_trait", "veteran", "yes");
    NextIsReachable(w, c);
    w' := Next(w, c).value;
  }

  lemma Applies(w: World) returns (w': World)
    requires Reachable(w) && 1 in w.entries && !w.config.paused && !w.entries[1].token.frozen
    requires w.rules == Rules(map[], 1, map[1 := VETERANS], 2) && w.entries[1].token.stringTraits == map[]
    requires OwnerEvents(w.entries[1].owners) == 3
    ensures Reachable(w') && 1 in w'.entries && w'.rules == w.rules && w'.entries[1].owners == w.entries[1].owners
    ensures w'.entries[1].token.stringTraits == map["veteran" := "yes"]
  {
    VeteransFire(w.entries[1].token, Facts(MetricsOf(w.metrics, 1), w.entries[1].owners, 0));
    w' := Fires(w);
  }

  lemma VeteransFire(t: Token, f: Facts)
    requires OwnerEvents(f.owners) == 3
    ensures Triggered(t, map[1 := VETERANS], 2, f) == (Affected(t, VETERANS), 1)
  {
    assert Triggered(t, map[1 := VETERANS], 1, f) == (t, 0) by {
      assert Triggered(t, map[1 := VETERANS], 0, f) == (t, 0);
    }
  }

  lemma Fires(w: World) returns (w': World)
    requires Reachable(w) && 1 in w.entries && !w.config.paused && !w.entries[1].token.frozen
    ensures Reachable(w') && w' == w.(entries := w.entries[1 := AfterTriggers(
              w.entries[1], w.rules.triggers, w.rules.nextTrigger, MetricsOf(w.metrics, 1), w.config.self, 0)])
  {
    NextIsReachable(w, Fire(w.config.admin, 1, 0));
    w' := Next(w, Fire(w.config.admin, 1, 0)).value;
  }

  lemma ThreeEvents(h: seq<OwnerRecord>)
    requires |h| == 3 && forall i :: 0 <= i < 3 ==> h[i].event != Burn
    ensures OwnerEvents(h) == 3
  {
    assert h[..2][..1] == [h[0]] && h[..1][..0] == [];
    assert OwnerEvents(h[..2]) == OwnerEvents(h[..2][..1]) + 1;
  }

  lemma Burns(w: World) returns (w': World)
    requires Reachable(w) && 1 in w.entries && !w.config.paused && !w.entries[1].token.frozen
    ensures Reachable(w') && w' == w.(entries := w.entries[1 := Burned(w.entries[1], 0)])
  {
    NextIsReachable(w, BurnToken(w.entries[1].token.owner, 1, 0));
    w' := w.(entries := w.entries[1 := Burned(w.entries[1], 0)]);
  }

  /** A burnt token that was transferred afterwards. */
  lemma BurntTokenReturns(admin: Address, alice: Address, bob: Address)
    ensures exists w :: Reachable(w) && 1 in w.entries && w.entries[1].token.owner == bob
                     && |w.entries[1].owners| == 3 && w.entries[1].owners[1].event == Burn
                     && !IsBurned(w.entries[1].owners)
  {
    var w := Mints(admin, alice);
    w := Burns(w);
    assert w.entries[1].owners == [OwnerRecord(alice, Mint, 0, alice), OwnerRecord(alice, Burn, 0, alice)];
    w := Transfers(w, bob);
    assert w.entries[1].owners[2] == OwnerRecord(bob, Transfer, 0, alice);
  }

  lemma Measures(w: World, value: nat) returns (w': World)
    requires Reachable(w) && 1 in w.entries && !w.config.paused && w.rules == Rules(map[], 1, map[], 1)
    requires value <= U64_MAX
    ensures Reachable(w') && 1 in w'.entries && w'.config == w.config && w'.rules == w.rules
    ensures MetricOf(w'.metrics, 1, "m") == value
    ensures var was := MetricOf(w.metrics, 1, "m"); var delta := if value < was then 0 else value - was;
      && Get(w'.raised, 1) == Get(w.raised, 1) + delta && Get(w'.lost, 1) == Get(w.lost, 1) + was + delta - value
  {
    var c := SetMetric(w.config.oracle, 1, "m", value, 0);
    NextIsReachable(w, c);
    w' := Next(w, c).value;
  }

  /** One metric set to 5 and then to 3 leaves a score of 5 over a sum of 3. */
  lemma LoweredMetricBreaksMirror(admin: Address)
    ensures exists w :: Reachable(w) && 1 in w.entries && w.entries[1].token.score == 5 && MetricSum(w.metrics, 1) == 3
  {
    var w := Mints(admin, admin);
    w := Measures(w, 5);
    w := Measures(w, 3);
    ReachableScoresAreSound(w);
    assert ScoreSound(w, 1);
  }

  /** A frozen token whose name was replaced by a migration. */
  lemma FrozenTokenMigrates(admin: Address)
    ensures exists w :: Reachable(w) && 1 in w.entries && w.entries[1].token.frozen && w.entries[1].token.name == "new"
                     && |w.entries[1].versions| == 4 && w.entries[1].versions[0].snapshot.name == ""
  {
    var w := Mints(admin, admin);
    var frozen := Freezes(w);
    var p := Migration("new", "", 0, "", map[], map[], 0, 0);
    var w' := Migrates(frozen, p);
    assert w'.entries[1].token.name == "new";
  }

  lemma Migrates(w: World, p: Migration) returns (w': World)
    requires Reachable(w) && 1 in w.entries && w.config.schema == 1
    requires p.stringTraits == map[] && p.numericTraits == map[]
    ensures Reachable(w') && 1 in w'.entries && w'.entries[1] == Migrated(w.entries[1], p, 1, w.config.migrator, 0)
  {
    var c := Migrate(w.config.migrator, 1, 1, p, 0);
    NextIsReachable(w, c);
    w' := Next(w, c).value;
  }
}
