/** Bonuses for completed puzzle sets and synergies, and the leaderboards over
    them, as a state machine. The puzzles a player owns and whether the reward
    token mints are answers of other contracts, part of each call. */
module AchievementBooks {
  import opened Host
  import opened Sequences
  import opened Sums
  import opened TopN
  import Runs

  datatype Tier = Common | Rare | Epic | Legendary | Mythic

  datatype AchievementSet = AchievementSet(required: seq<nat>, tier: Tier, baseBonus: int, cap: Option<nat>)

  datatype Synergy = Synergy(required: seq<nat>, bonus: int)

  /** What a bonus was granted for; each can be granted to a player once. */
  datatype Grant = ForSet(player: Address, id: nat) | ForSynergy(player: Address, id: nat)

  function TierBonus(tier: Tier): int {
    match tier case Common => 0 case Rare => 50 case Epic => 125 case Legendary => 300 case Mythic => 750
  }

  // ---- Completion ----

  /** The required puzzles that are owned, each once, in required order. */
  function Completed(required: seq<nat>, owned: seq<nat>): seq<nat> {
    if required == [] then [] else
      var rest := Completed(required[..|required| - 1], owned);
      var p := required[|required| - 1];
      if p in owned && p !in rest then rest + [p] else rest
  }

  function IsCompleted(required: seq<nat>, completed: seq<nat>): bool {
    |completed| >= |required| && forall p | p in required :: p in completed
  }

  lemma {:induction false} CompletedMembers(required: seq<nat>, owned: seq<nat>)
    ensures forall p :: p in Completed(required, owned) <==> p in required && p in owned
    decreases |required|
  {
    if required != [] {
      CompletedMembers(required[..|required| - 1], owned);
      assert required == required[..|required| - 1] + [required[|required| - 1]];
    }
  }

  lemma {:induction false} CompletedLength(required: seq<nat>, owned: seq<nat>)
    ensures |Completed(required, owned)| <= |required|
    ensures |Completed(required, owned)| == |required|
      <==> Distinct(required) && forall p :: p in required ==> p in owned
    decreases |required|
  {
    if required != [] {
      var init, last := required[..|required| - 1], required[|required| - 1];
      assert required == init + [last];
      CompletedLength(init, owned);
      CompletedMembers(init, owned);
      assert last in init && last in owned ==> !Distinct(required) by {
        if last in init {
          var i :| 0 <= i < |init| && init[i] == last;
          assert required[i] == required[|required| - 1];
        }
      }
      if Distinct(init) && last !in init {
        assert Distinct(required);
      }
    }
  }

  /** A set is complete for its player exactly when all its puzzles are owned and
      none is required twice: a set listing a puzzle twice can never be claimed. */
  lemma CompleteIff(required: seq<nat>, owned: seq<nat>)
    ensures IsCompleted(required, Completed(required, owned))
      <==> Distinct(required) && forall p :: p in required ==> p in owned
  {
    CompletedLength(required, owned);
    CompletedMembers(required, owned);
  }

  // ---- What a player earned ----

  ghost function Owners(granted: map<Grant, int>): map<Grant, Address> {
    map g | g in granted :: g.player
  }

  /** All bonuses granted to `p`. */
  ghost function Earned(granted: map<Grant, int>, p: Address): int {
    Total(Group(granted, Owners(granted), p))
  }

  lemma EarnedAfter(granted: map<Grant, int>, g: Grant, bonus: int, p: Address)
    requires g !in granted
    ensures Earned(granted[g := bonus], p) == Earned(granted, p) + if p == g.player then bonus else 0
  {
    var before := Group(granted, Owners(granted), p);
    var after := Group(granted[g := bonus], Owners(granted[g := bonus]), p);
    if p == g.player {
      assert after == before[g := bonus];
      TotalUpdate(before, g, bonus);
    } else {
      assert after == before;
    }
  }

  function BoardOf(boards: map<nat, seq<Entry>>, id: nat): seq<Entry> {
    if id in boards then boards[id] else []
  }

  function TableOf(tables: map<nat, Table>, id: nat): Table {
    if id in tables then tables[id] else map[]
  }

  // ---- The books ----

  ghost predicate TotalsSound(totals: Table, granted: map<Grant, int>) {
    forall p :: Get(totals, p) == Earned(granted, p)
  }

  lemma TotalsAfter(totals: Table, granted: map<Grant, int>, g: Grant, bonus: int)
    requires TotalsSound(totals, granted) && g !in granted
    ensures TotalsSound(totals[g.player := Get(totals, g.player) + bonus], granted[g := bonus])
  {
    var totals', granted' := totals[g.player := Get(totals, g.player) + bonus], granted[g := bonus];
    forall p ensures Get(totals', p) == Earned(granted', p) {
      EarnedAfter(granted, g, bonus, p);
    }
  }

  /** The claim flags are exactly the grants made. */
  ghost predicate FlagsSound(granted: map<Grant, int>, sets: set<(Address, nat)>, synergies: set<(Address, nat)>) {
    && (forall p, id: nat {:trigger ForSet(p, id)} :: ForSet(p, id) in granted <==> (p, id) in sets)
    && (forall p, id: nat {:trigger ForSynergy(p, id)} :: ForSynergy(p, id) in granted <==> (p, id) in synergies)
  }

  lemma FlagsAfter(granted: map<Grant, int>, sets: set<(Address, nat)>, synergies: set<(Address, nat)>,
                   p: Address, id: nat, bonus: int)
    requires FlagsSound(granted, sets, synergies)
    ensures FlagsSound(granted[ForSet(p, id) := bonus], sets + {(p, id)}, synergies)
    ensures FlagsSound(granted[ForSynergy(p, id) := bonus], sets, synergies + {(p, id)})
  {
  }

  /** Per set, the board is the top of the table of everybody who claimed it. */
  ghost predicate BoardsSound(boards: map<nat, seq<Entry>>, scores: map<nat, Table>, cap: nat) {
    forall id: nat {:trigger BoardOf(boards, id)} :: IsTopN(BoardOf(boards, id), TableOf(scores, id), cap)
  }

  lemma BoardsAfter(boards: map<nat, seq<Entry>>, scores: map<nat, Table>, cap: nat, id: nat, e: Entry)
    requires BoardsSound(boards, scores, cap) && cap >= 1 && e.player !in TableOf(scores, id)
    ensures BoardsSound(boards[id := Refreshed(BoardOf(boards, id), e, cap)],
                        scores[id := TableOf(scores, id)[e.player := e.score]], cap)
  {
    RisingScoreKeepsTopN(BoardOf(boards, id), TableOf(scores, id), e, cap);
    var boards', scores' := boards[id := Refreshed(BoardOf(boards, id), e, cap)],
                            scores[id := TableOf(scores, id)[e.player := e.score]];
    forall i: nat ensures IsTopN(BoardOf(boards', i), TableOf(scores', i), cap) {
      if i != id {
        assert BoardOf(boards', i) == BoardOf(boards, i) && TableOf(scores', i) == TableOf(scores, i);
      }
    }
  }

  /** The tables hold exactly the claimants. */
  ghost predicate ClaimantsSound(scores: map<nat, Table>, claimed: set<(Address, nat)>) {
    forall p, id: nat {:trigger (p, id) in claimed} :: p in TableOf(scores, id) <==> (p, id) in claimed
  }

  /** No limited set has more claimants than its cap. */
  ghost predicate CapsKept(scores: map<nat, Table>, sets: map<nat, AchievementSet>, claims: map<nat, int>) {
    forall id :: id in sets && sets[id].cap.Some? ==>
      Get(claims, id) == |TableOf(scores, id)| <= sets[id].cap.value
  }

  lemma ClaimantsAfter(scores: map<nat, Table>, claimed: set<(Address, nat)>, p: Address, id: nat, bonus: int)
    requires ClaimantsSound(scores, claimed)
    ensures ClaimantsSound(scores[id := TableOf(scores, id)[p := bonus]], claimed + {(p, id)})
  {
    var scores', claimed' := scores[id := TableOf(scores, id)[p := bonus]], claimed + {(p, id)};
    forall q, i: nat ensures q in TableOf(scores', i) <==> (q, i) in claimed' {
      assert q in TableOf(scores, i) <==> (q, i) in claimed;
    }
  }

  lemma CapsAfter(scores: map<nat, Table>, sets: map<nat, AchievementSet>, claims: map<nat, int>,
                  p: Address, id: nat, bonus: int)
    requires CapsKept(scores, sets, claims) && id in sets && p !in TableOf(scores, id)
    requires sets[id].cap.Some? ==> Get(claims, id) < sets[id].cap.value
    ensures CapsKept(scores[id := TableOf(scores, id)[p := bonus]], sets,
                     if sets[id].cap.Some? then claims[id := Get(claims, id) + 1] else claims)
  {
    var after := TableOf(scores, id)[p := bonus];
    assert after.Keys == TableOf(scores, id).Keys + {p};
    assert |after| == |after.Keys| && |TableOf(scores, id)| == |TableOf(scores, id).Keys|;
  }

  // ---- The state machine ----

  datatype World = World(
    admin: Address, maxTop: nat,
    sets: map<nat, AchievementSet>, synergies: map<nat, Synergy>, nextSetId: nat, nextSynergyId: nat,
    setClaimed: set<(Address, nat)>, synergyClaimed: set<(Address, nat)>, setClaims: map<nat, int>,
    totals: Table, globalBoard: seq<Entry>, setBoards: map<nat, seq<Entry>>,
    granted: map<Grant, int>,        // every bonus granted so far
    setScores: map<nat, Table>)      // per set, who claimed it and for how much

  function Start(admin: Address, maxTop: nat): World {
    World(admin, maxTop, map[], map[], 1, 1, {}, {}, map[], map[], [], map[], map[], map[])
  }

  function AfterCreateSet(w: World, caller: Address, s: AchievementSet): Option<World> {
    if caller != w.admin || s.required == [] || s.baseBonus <= 0 || s.cap == Some(0) || w.nextSetId >= U32_MAX then None
    else Some(w.(sets := w.sets[w.nextSetId := s], nextSetId := w.nextSetId + 1))
  }

  function AfterCreateSynergy(w: World, caller: Address, s: Synergy): Option<World> {
    if caller != w.admin || |s.required| < 2 || s.bonus <= 0 || w.nextSynergyId >= U32_MAX
       || exists i | i in s.required :: i !in w.sets then None
    else Some(w.(synergies := w.synergies[w.nextSynergyId := s], nextSynergyId := w.nextSynergyId + 1))
  }

  /** The set's puzzles are all owned, and none is required twice. */
  ghost predicate Complete(s: AchievementSet, owned: seq<nat>) {
    Distinct(s.required) && forall p :: p in s.required ==> p in owned
  }

  function BonusOf(s: AchievementSet): int {
    s.baseBonus + TierBonus(s.tier)
  }

  /** The player's new total, as an entry for the board. */
  function Raised(totals: Table, player: Address, bonus: int, now: nat): Entry {
    Entry(player, Get(totals, player) + bonus, now)
  }

  /** The books after a successful claim of set `id`. */
  ghost function WithSetClaim(w: World, player: Address, id: nat, now: nat): World
    requires id in w.sets
  {
    var bonus := BonusOf(w.sets[id]);
    var e := Raised(w.totals, player, bonus, now);
    w.(setClaimed := w.setClaimed + {(player, id)},
       setClaims := if w.sets[id].cap.Some? then w.setClaims[id := Get(w.setClaims, id) + 1] else w.setClaims,
       totals := w.totals[e.player := e.score],
       globalBoard := Refreshed(w.globalBoard, e, w.maxTop),
       setBoards := w.setBoards[id := Refreshed(BoardOf(w.setBoards, id), Entry(player, bonus, now), w.maxTop)],
       granted := w.granted[ForSet(player, id) := bonus],
       setScores := w.setScores[id := TableOf(w.setScores, id)[player := bonus]])
  }

  ghost function AfterClaimSet(w: World, player: Address, id: nat, owned: seq<nat>, minted: bool, now: nat)
      : Option<World> {
    if id !in w.sets || (player, id) in w.setClaimed then None else
      var s, bonus := w.sets[id], BonusOf(w.sets[id]);
      if (s.cap.Some? && Get(w.setClaims, id) >= s.cap.value) || !Complete(s, owned)
         || bonus > I128_MAX || !minted || Get(w.totals, player) + bonus > I128_MAX then None
      else Some(WithSetClaim(w, player, id, now))
  }

  function RefreshedTwice(board: seq<Entry>, e: Entry, cap: nat): seq<Entry> {
    Refreshed(Refreshed(board, e, cap), e, cap)
  }

  /** The books after a successful claim of synergy `id`; the global board is
      refreshed twice. */
  ghost function WithSynergyClaim(w: World, player: Address, id: nat, now: nat): World
    requires id in w.synergies
  {
    var e := Raised(w.totals, player, w.synergies[id].bonus, now);
    w.(synergyClaimed := w.synergyClaimed + {(player, id)},
       totals := w.totals[e.player := e.score],
       globalBoard := RefreshedTwice(w.globalBoard, e, w.maxTop),
       granted := w.granted[ForSynergy(player, id) := w.synergies[id].bonus])
  }

  ghost function AfterClaimSynergy(w: World, player: Address, id: nat, owned: seq<nat>, minted: bool, now: nat)
      : Option<World> {
    if id !in w.synergies || (player, id) in w.synergyClaimed then None
    else if (exists i :: i in w.synergies[id].required && (i !in w.sets || !Complete(w.sets[i], owned)))
         || !minted || Get(w.totals, player) + w.synergies[id].bonus > I128_MAX then None
    else Some(WithSynergyClaim(w, player, id, now))
  }

  datatype Call =
    | CreateSet(caller: Address, newSet: AchievementSet)
    | CreateSynergy(caller: Address, newSynergy: Synergy)
    | ClaimSet(player: Address, id: nat, owned: seq<nat>, minted: bool, now: nat)
    | ClaimSynergy(player: Address, id: nat, owned: seq<nat>, minted: bool, now: nat)

  ghost function Next(w: World, c: Call): Option<World> {
    match c
    case CreateSet(caller, s) => AfterCreateSet(w, caller, s)
    case CreateSynergy(caller, s) => AfterCreateSynergy(w, caller, s)
    case ClaimSet(player, id, owned, minted, now) => AfterClaimSet(w, player, id, owned, minted, now)
    case ClaimSynergy(player, id, owned, minted, now) => AfterClaimSynergy(w, player, id, owned, minted, now)
  }

  ghost function Step(w: World, c: Call): World {
    match Next(w, c) case Some(w') => w' case None => w
  }

  ghost predicate Reachable(w: World) {
    exists admin, maxTop: nat :: maxTop >= 1 && Runs.ReachableFrom(Step, Start(admin, maxTop), w)
  }

  lemma ReachableStep(w: World, c: Call)
    requires Reachable(w)
    ensures Reachable(Step(w, c))
  {
    var admin, maxTop: nat :| maxTop >= 1 && Runs.ReachableFrom(Step, Start(admin, maxTop), w);
    Runs.ReachableNext(Step, Start(admin, maxTop), w, c);
  }

  lemma StartIsReachable(admin: Address, maxTop: nat)
    requires maxTop >= 1
    ensures Reachable(Start(admin, maxTop))
  {
    Runs.ReachableNow(Step, Start(admin, maxTop));
  }

  // ---- The invariant ----

  ghost predicate GlobalSound(w: World) {
    w.maxTop >= 1 && IsTopN(w.globalBoard, w.totals, w.maxTop) && TotalsSound(w.totals, w.granted)
  }

  ghost predicate ClaimsSound(w: World) {
    && FlagsSound(w.granted, w.setClaimed, w.synergyClaimed)
    && ClaimantsSound(w.setScores, w.setClaimed)
    && CapsKept(w.setScores, w.sets, w.setClaims)
  }

  ghost predicate DefinitionsSound(w: World) {
    && (forall id :: id in w.sets ==> id < w.nextSetId && w.sets[id].baseBonus > 0)
    && (forall id :: id in w.synergies ==> w.synergies[id].bonus > 0)
    && (forall id :: id in w.setScores || id in w.setClaims ==> id in w.sets)
  }

  ghost predicate Sound(w: World) {
    && GlobalSound(w) && ClaimsSound(w) && DefinitionsSound(w)
    && BoardsSound(w.setBoards, w.setScores, w.maxTop)
  }

  /** A grant raises its player's total, and the refreshed board follows, be it
      refreshed once or twice. */
  lemma GlobalAfter(board: seq<Entry>, totals: Table, granted: map<Grant, int>, cap: nat, g: Grant, bonus: int,
                    e: Entry)
    requires IsTopN(board, totals, cap) && TotalsSound(totals, granted)
    requires cap >= 1 && g !in granted && bonus >= 0 && e.player == g.player && e.score == Get(totals, g.player) + bonus
    ensures IsTopN(Refreshed(board, e, cap), totals[e.player := e.score], cap)
    ensures IsTopN(RefreshedTwice(board, e, cap), totals[e.player := e.score], cap)
    ensures TotalsSound(totals[e.player := e.score], granted[g := bonus])
  {
    TotalsAfter(totals, granted, g, bonus);
    TwiceKeepsTopN(board, totals, e, cap);
  }

  /** Ranking the same score once more keeps the list the top of the table. */
  lemma TwiceKeepsTopN(board: seq<Entry>, t: Table, e: Entry, cap: nat)
    requires IsTopN(board, t, cap) && cap >= 1
    requires e.player in t ==> e.score >= t[e.player]
    ensures IsTopN(Refreshed(board, e, cap), t[e.player := e.score], cap)
    ensures IsTopN(RefreshedTwice(board, e, cap), t[e.player := e.score], cap)
  {
    var t' := t[e.player := e.score];
    RisingScoreKeepsTopN(board, t, e, cap);
    RisingScoreKeepsTopN(Refreshed(board, e, cap), t', e, cap);
    assert t'[e.player := e.score] == t';
  }

  lemma ClaimsAfter(w: World, w': World, player: Address, id: nat, bonus: int)
    requires ClaimsSound(w) && id in w.sets && (player, id) !in w.setClaimed && w'.sets == w.sets
    requires w.sets[id].cap.Some? ==> Get(w.setClaims, id) < w.sets[id].cap.value
    requires w'.setClaims == if w.sets[id].cap.Some? then w.setClaims[id := Get(w.setClaims, id) + 1] else w.setClaims
    requires w'.setClaimed == w.setClaimed + {(player, id)} && w'.synergyClaimed == w.synergyClaimed
    requires w'.granted == w.granted[ForSet(player, id) := bonus]
    requires w'.setScores == w.setScores[id := TableOf(w.setScores, id)[player := bonus]]
    ensures ClaimsSound(w')
  {
    FlagsAfter(w.granted, w.setClaimed, w.synergyClaimed, player, id, bonus);
    ClaimantsAfter(w.setScores, w.setClaimed, player, id, bonus);
    CapsAfter(w.setScores, w.sets, w.setClaims, player, id, bonus);
  }

  lemma ClaimKeepsGlobal(w: World, player: Address, id: nat, now: nat)
    requires GlobalSound(w) && id in w.sets && ForSet(player, id) !in w.granted && BonusOf(w.sets[id]) >= 0
    ensures GlobalSound(WithSetClaim(w, player, id, now))
  {
    GlobalAfter(w.globalBoard, w.totals, w.granted, w.maxTop, ForSet(player, id), BonusOf(w.sets[id]),
                Raised(w.totals, player, BonusOf(w.sets[id]), now));
  }

  lemma ClaimKeepsBoards(w: World, player: Address, id: nat, now: nat)
    requires BoardsSound(w.setBoards, w.setScores, w.maxTop) && w.maxTop >= 1
    requires id in w.sets && player !in TableOf(w.setScores, id)
    ensures var w' := WithSetClaim(w, player, id, now); BoardsSound(w'.setBoards, w'.setScores, w'.maxTop)
  {
    BoardsAfter(w.setBoards, w.setScores, w.maxTop, id, Entry(player, BonusOf(w.sets[id]), now));
  }

  lemma ClaimKeepsDefinitions(w: World, player: Address, id: nat, now: nat)
    requires DefinitionsSound(w) && id in w.sets
    ensures DefinitionsSound(WithSetClaim(w, player, id, now))
  {
  }

  lemma ClaimSetKeeps(w: World, player: Address, id: nat, now: nat)
    requires Sound(w) && id in w.sets && (player, id) !in w.setClaimed
    requires w.sets[id].cap.Some? ==> Get(w.setClaims, id) < w.sets[id].cap.value
    ensures Sound(WithSetClaim(w, player, id, now))
  {
    ClaimKeepsGlobal(w, player, id, now);
    assert player !in TableOf(w.setScores, id);
    ClaimKeepsBoards(w, player, id, now);
    ClaimKeepsDefinitions(w, player, id, now);
    ClaimKeepsClaims(w, player, id, now);
  }

  lemma ClaimKeepsClaims(w: World, player: Address, id: nat, now: nat)
    requires ClaimsSound(w) && id in w.sets && (player, id) !in w.setClaimed
    requires w.sets[id].cap.Some? ==> Get(w.setClaims, id) < w.sets[id].cap.value
    ensures ClaimsSound(WithSetClaim(w, player, id, now))
  {
    ClaimsAfter(w, WithSetClaim(w, player, id, now), player, id, BonusOf(w.sets[id]));
  }

  lemma SynergyClaimKeepsGlobal(w: World, player: Address, id: nat, now: nat)
    requires GlobalSound(w) && id in w.synergies && ForSynergy(player, id) !in w.granted && w.synergies[id].bonus >= 0
    ensures GlobalSound(WithSynergyClaim(w, player, id, now))
  {
    GlobalAfter(w.globalBoard, w.totals, w.granted, w.maxTop, ForSynergy(player, id), w.synergies[id].bonus,
                Raised(w.totals, player, w.synergies[id].bonus, now));
  }

  lemma ClaimSynergyKeeps(w: World, player: Address, id: nat, now: nat)
    requires Sound(w) && id in w.synergies && (player, id) !in w.synergyClaimed
    ensures Sound(WithSynergyClaim(w, player, id, now))
  {
    SynergyClaimKeepsGlobal(w, player, id, now);
    FlagsAfter(w.granted, w.setClaimed, w.synergyClaimed, player, id, w.synergies[id].bonus);
  }

  lemma CreateSetKeeps(w: World, caller: Address, s: AchievementSet)
    requires Sound(w) && AfterCreateSet(w, caller, s).Some?
    ensures Sound(AfterCreateSet(w, caller, s).value)
  {
    assert w.nextSetId !in w.setScores && w.nextSetId !in w.setClaims;
  }

  lemma StepKeepsSound(w: World, c: Call)
    requires Sound(w)
    ensures Sound(Step(w, c))
  {
    if Next(w, c).Some? {
      match c
      case CreateSet(caller, s) => CreateSetKeeps(w, caller, s);
      case CreateSynergy(caller, s) =>
      case ClaimSet(player, id, owned, minted, now) => ClaimSetKeeps(w, player, id, now);
      case ClaimSynergy(player, id, owned, minted, now) => ClaimSynergyKeeps(w, player, id, now);
    }
  }

  lemma StartIsSound(admin: Address, maxTop: nat)
    requires maxTop >= 1
    ensures Sound(Start(admin, maxTop))
  {
    forall p ensures Earned(map[], p) == 0 {
      assert Group(map[], Owners(map[]), p) == map[];
    }
  }

  lemma ReachableIsSound(w: World)
    requires Reachable(w)
    ensures Sound(w)
  {
    var admin, maxTop: nat :| maxTop >= 1 && Runs.ReachableFrom(Step, Start(admin, maxTop), w);
    StartIsSound(admin, maxTop);
    forall v, c | Sound(v) ensures Sound(Step(v, c)) {
      StepKeepsSound(v, c);
    }
    Runs.ReachableKeeps(Step, Sound, Start(admin, maxTop), w);
  }

  // ---- For every run ----

  /** The global board is the true top N of the players' totals, and each total is
      the sum of the bonuses granted to the player, one per claimed set and one
      per claimed synergy. */
  lemma GlobalBoardIsTopN(w: World)
    requires Reachable(w)
    ensures IsTopN(w.globalBoard, w.totals, w.maxTop)
    ensures forall p :: Get(w.totals, p) == Total(Group(w.granted, Owners(w.granted), p))
    ensures forall p, id: nat :: (ForSet(p, id) in w.granted <==> (p, id) in w.setClaimed)
    ensures forall p, id: nat :: (ForSynergy(p, id) in w.granted <==> (p, id) in w.synergyClaimed)
  {
    ReachableIsSound(w);
  }

  /** Each set's board is the top N of its claimants, and a limited set has at
      most its cap of claimants. */
  lemma SetBoardsAreTopN(w: World, id: nat)
    requires Reachable(w)
    ensures IsTopN(BoardOf(w.setBoards, id), TableOf(w.setScores, id), w.maxTop)
    ensures forall p :: p in TableOf(w.setScores, id) <==> (p, id) in w.setClaimed
    ensures id in w.sets && w.sets[id].cap.Some? ==> |TableOf(w.setScores, id)| <= w.sets[id].cap.value
  {
    ReachableIsSound(w);
    assert BoardOf(w.setBoards, id) == BoardOf(w.setBoards, id);
  }
}
