/** What a user claimed and when: the history that the fraud checks are about,
    and the trimmed list of recent claims that stands in for it. */
module ClaimHistory {
  import opened Host

  const DAY := 86_400
  const LOOKBACK := 30 * DAY

  datatype ClaimStatus = Submitted | UnderReview | Approved | Rejected | Paid

  datatype Claim = Claim(owner: Address, amount: int, at: nat, status: ClaimStatus, payout: int, paidAt: nat)

  type Claims = map<nat, Claim>

  /** The claim limit and the cooldown in force when a claim was made. */
  datatype Rule = Rule(limit: nat, cooldown: nat)

  type Rules = map<nat, Rule>

  function Horizon(now: nat): nat {
    if now < LOOKBACK then 0 else now - LOOKBACK
  }

  /** The claims of `ids` submitted at `from` or later, in their order. */
  function Since(claims: Claims, ids: seq<nat>, from: nat): seq<nat> {
    if ids == [] then [] else
      var rest, id := Since(claims, ids[..|ids| - 1], from), ids[|ids| - 1];
      if id in claims && claims[id].at >= from then rest + [id] else rest
  }

  function LastTime(claims: Claims, ids: seq<nat>): nat {
    if ids != [] && ids[|ids| - 1] in claims then claims[ids[|ids| - 1]].at else 0
  }

  /** Filtering a filtered list for a later time is filtering the whole list. */
  lemma {:induction false} SinceTwice(claims: Claims, ids: seq<nat>, from: nat, later: nat)
    requires from <= later
    ensures Since(claims, Since(claims, ids, from), later) == Since(claims, ids, later)
    decreases |ids|
  {
    if ids != [] {
      SinceTwice(claims, ids[..|ids| - 1], from, later);
    }
  }

  lemma {:induction false} SinceShrinks(claims: Claims, ids: seq<nat>, from: nat, later: nat)
    requires from <= later
    ensures |Since(claims, ids, later)| <= |Since(claims, ids, from)|
    decreases |ids|
  {
    if ids != [] {
      SinceShrinks(claims, ids[..|ids| - 1], from, later);
    }
  }

  ghost predicate Agree(claims: Claims, claims': Claims, ids: seq<nat>) {
    forall id :: id in ids ==>
      id in claims && id in claims' && claims'[id].at == claims[id].at && claims'[id].owner == claims[id].owner
  }

  lemma {:induction false} SinceAgrees(claims: Claims, claims': Claims, ids: seq<nat>, from: nat)
    requires Agree(claims, claims', ids)
    ensures Since(claims', ids, from) == Since(claims, ids, from)
    decreases |ids|
  {
    if ids != [] {
      assert forall id :: id in ids[..|ids| - 1] ==> id in ids;
      SinceAgrees(claims, claims', ids[..|ids| - 1], from);
    }
  }

  // ---- What holds of one user's history ----

  ghost predicate Ordered(claims: Claims, rules: Rules, ids: seq<nat>) {
    && (forall id :: id in ids ==> id in claims && id in rules)
    && (forall i, j :: 0 <= i < j < |ids| ==> ids[i] < ids[j] && claims[ids[i]].at <= claims[ids[j]].at)
  }

  /** When claim number `i` was accepted there were at most as many recent ones
      as the limit of that moment, itself included. */
  ghost predicate LimitedAt(claims: Claims, rules: Rules, ids: seq<nat>, i: nat)
    requires i < |ids| && ids[i] in claims && ids[i] in rules
  {
    |Since(claims, ids[..i + 1], Horizon(claims[ids[i]].at))| <= rules[ids[i]].limit
  }

  ghost predicate Limited(claims: Claims, rules: Rules, ids: seq<nat>)
    requires Ordered(claims, rules, ids)
  {
    forall i: nat :: i < |ids| ==> LimitedAt(claims, rules, ids, i)
  }

  /** A claim is apart from the one before by the cooldown it found; a claim at
      time 0 does not count as one before. */
  ghost predicate Spaced(claims: Claims, rules: Rules, ids: seq<nat>)
    requires Ordered(claims, rules, ids)
  {
    forall i: nat :: i + 1 < |ids| && claims[ids[i]].at > 0 ==>
      claims[ids[i + 1]].at >= claims[ids[i]].at + rules[ids[i + 1]].cooldown
  }

  ghost predicate UserSound(claims: Claims, rules: Rules, ids: seq<nat>, user: Address, now: nat) {
    && Ordered(claims, rules, ids)
    && (forall id :: id in ids ==> claims[id].owner == user && claims[id].at <= now)
    && Limited(claims, rules, ids) && Spaced(claims, rules, ids)
  }

  ghost predicate SameRules(rules: Rules, rules': Rules, ids: seq<nat>) {
    forall id :: id in ids && id in rules ==> id in rules' && rules'[id] == rules[id]
  }

  lemma UserAgrees(claims: Claims, claims': Claims, rules: Rules, rules': Rules, ids: seq<nat>, user: Address,
                   now: nat, now': nat)
    requires UserSound(claims, rules, ids, user, now) && Agree(claims, claims', ids) && SameRules(rules, rules', ids)
    requires now <= now'
    ensures UserSound(claims', rules', ids, user, now')
  {
    forall i: nat | i < |ids| ensures LimitedAt(claims', rules', ids, i) {
      assert LimitedAt(claims, rules, ids, i);
      assert forall id :: id in ids[..i + 1] ==> id in ids;
      SinceAgrees(claims, claims', ids[..i + 1], Horizon(claims[ids[i]].at));
    }
  }

  lemma LimitedAppended(claims: Claims, rules: Rules, s: seq<nat>)
    requires Ordered(claims, rules, s) && s != [] && Ordered(claims, rules, s[..|s| - 1])
    requires Limited(claims, rules, s[..|s| - 1])
    requires var last := s[|s| - 1]; |Since(claims, s[..|s| - 1], Horizon(claims[last].at))| < rules[last].limit
    ensures Limited(claims, rules, s)
  {
    var init := s[..|s| - 1];
    forall i: nat | i < |s| ensures LimitedAt(claims, rules, s, i) {
      if i < |init| {
        assert LimitedAt(claims, rules, init, i);
        PrefixLimited(claims, rules, s, i);
      } else {
        assert s[..i + 1] == s;
      }
    }
  }

  lemma PrefixLimited(claims: Claims, rules: Rules, s: seq<nat>, i: nat)
    requires i + 1 < |s| && s[i] in claims && s[i] in rules && LimitedAt(claims, rules, s[..|s| - 1], i)
    ensures LimitedAt(claims, rules, s, i)
  {
    assert s[..|s| - 1][..i + 1] == s[..i + 1];
  }

  lemma OrderedAppended(claims: Claims, rules: Rules, ids: seq<nat>, id: nat, c: Claim, rule: Rule, now: nat)
    requires Ordered(claims, rules, ids) && id !in claims && c.at >= now
    requires forall k :: k in ids ==> k < id && claims[k].at <= now
    ensures Ordered(claims[id := c], rules[id := rule], ids + [id])
  {
    var claims', s := claims[id := c], ids + [id];
    forall i, j | 0 <= i < j < |s| ensures s[i] < s[j] && claims'[s[i]].at <= claims'[s[j]].at {
      assert s[i] == ids[i] && ids[i] in ids;
    }
  }

  lemma SpacedAppended(claims: Claims, rules: Rules, ids: seq<nat>, id: nat)
    requires Ordered(claims, rules, ids + [id]) && Ordered(claims, rules, ids) && Spaced(claims, rules, ids)
    requires LastTime(claims, ids) > 0 ==> claims[id].at - LastTime(claims, ids) >= rules[id].cooldown
    ensures Spaced(claims, rules, ids + [id])
  {
    var s := ids + [id];
    forall i: nat | i + 1 < |s| && claims[s[i]].at > 0
      ensures claims[s[i + 1]].at >= claims[s[i]].at + rules[s[i + 1]].cooldown
    {
      if i + 1 < |ids| {
        assert s[i] == ids[i] && s[i + 1] == ids[i + 1];
      }
    }
  }

  /** A new claim that passed the checks against the whole history. */
  lemma UserAppends(claims: Claims, rules: Rules, ids: seq<nat>, user: Address, now: nat, id: nat, c: Claim, rule: Rule)
    requires UserSound(claims, rules, ids, user, now) && id !in claims && c.owner == user && c.at >= now
    requires forall k :: k in ids ==> k < id
    requires |Since(claims, ids, Horizon(c.at))| < rule.limit
    requires LastTime(claims, ids) > 0 ==> c.at - LastTime(claims, ids) >= rule.cooldown
    ensures UserSound(claims[id := c], rules[id := rule], ids + [id], user, c.at)
  {
    var claims', rules' := claims[id := c], rules[id := rule];
    assert Agree(claims, claims', ids);
    UserAgrees(claims, claims', rules, rules', ids, user, now, c.at);
    OrderedAppended(claims, rules, ids, id, c, rule, now);
    SinceAgrees(claims, claims', ids, Horizon(c.at));
    assert (ids + [id])[..|ids|] == ids;
    LimitedAppended(claims', rules', ids + [id]);
    assert LastTime(claims', ids) == LastTime(claims, ids);
    SpacedAppended(claims', rules', ids, id);
  }

  // ---- Intervals ----

  /** The claims submitted from `from` up to and including `to`. */
  ghost function Within(claims: Claims, ids: seq<nat>, from: nat, to: nat): seq<nat> {
    if ids == [] then [] else
      var rest, id := Within(claims, ids[..|ids| - 1], from, to), ids[|ids| - 1];
      if id in claims && from <= claims[id].at <= to then rest + [id] else rest
  }

  lemma {:induction false} WithinIsSince(claims: Claims, ids: seq<nat>, from: nat, to: nat)
    requires forall id :: id in ids ==> id in claims && claims[id].at <= to
    ensures Within(claims, ids, from, to) == Since(claims, ids, from)
    decreases |ids|
  {
    if ids != [] {
      assert forall id :: id in ids[..|ids| - 1] ==> id in ids;
      WithinIsSince(claims, ids[..|ids| - 1], from, to);
    }
  }

  lemma {:induction false} WithinMembers(claims: Claims, ids: seq<nat>, from: nat, to: nat)
    ensures forall id :: id in Within(claims, ids, from, to) <==>
                         id in ids && id in claims && from <= claims[id].at <= to
    decreases |ids|
  {
    if ids != [] {
      assert ids == ids[..|ids| - 1] + [ids[|ids| - 1]];
      WithinMembers(claims, ids[..|ids| - 1], from, to);
    }
  }

  ghost predicate IsLast(id: nat, ids: seq<nat>) {
    id in ids && forall k :: k in ids ==> k <= id
  }

  /** The limit checked against the trimmed window at each claim is a limit on
      every closed interval of the window's length: the last claim in it found the
      others, and its limit held. */
  lemma {:induction false} WindowIsLimited(claims: Claims, rules: Rules, ids: seq<nat>, from: nat, id: nat)
    requires Ordered(claims, rules, ids) && Limited(claims, rules, ids)
    requires IsLast(id, Within(claims, ids, from, from + LOOKBACK))
    ensures id in rules && |Within(claims, ids, from, from + LOOKBACK)| <= rules[id].limit
    decreases |ids|
  {
    var init, last := ids[..|ids| - 1], ids[|ids| - 1];
    if from <= claims[last].at <= from + LOOKBACK {
      LastIsNewest(claims, rules, ids, from, from + LOOKBACK, id);
      WithinLastWindow(claims, rules, ids, from);
    } else {
      InitIsSound(claims, rules, ids);
      WindowIsLimited(claims, rules, init, from, id);
    }
  }

  lemma InitIsSound(claims: Claims, rules: Rules, ids: seq<nat>)
    requires Ordered(claims, rules, ids) && Limited(claims, rules, ids) && ids != []
    ensures Ordered(claims, rules, ids[..|ids| - 1]) && Limited(claims, rules, ids[..|ids| - 1])
  {
    var init := ids[..|ids| - 1];
    forall i: nat | i < |init| ensures LimitedAt(claims, rules, init, i) {
      assert LimitedAt(claims, rules, ids, i);
      assert init[..i + 1] == ids[..i + 1];
    }
  }

  lemma LastIsNewest(claims: Claims, rules: Rules, ids: seq<nat>, from: nat, to: nat, id: nat)
    requires Ordered(claims, rules, ids) && ids != [] && from <= claims[ids[|ids| - 1]].at <= to
    requires IsLast(id, Within(claims, ids, from, to))
    ensures id == ids[|ids| - 1]
  {
    WithinMembers(claims, ids, from, to);
    assert ids[|ids| - 1] in Within(claims, ids, from, to);
    var i :| 0 <= i < |ids| && ids[i] == id;
  }

  /** An interval that holds the last claim holds no more than that claim found. */
  lemma WithinLastWindow(claims: Claims, rules: Rules, ids: seq<nat>, from: nat)
    requires Ordered(claims, rules, ids) && ids != [] && LimitedAt(claims, rules, ids, |ids| - 1)
    requires from <= claims[ids[|ids| - 1]].at <= from + LOOKBACK
    ensures |Within(claims, ids, from, from + LOOKBACK)| <= rules[ids[|ids| - 1]].limit
  {
    var last := ids[|ids| - 1];
    assert ids[..|ids|] == ids;
    forall id | id in ids ensures claims[id].at <= claims[last].at {
      var i :| 0 <= i < |ids| && ids[i] == id;
    }
    WithinIsSince(claims, ids, from, from + LOOKBACK);
    SinceShrinks(claims, ids, Horizon(claims[last].at), from);
  }

  lemma {:induction false} SeqBoundsSet(s: seq<nat>, ids: set<nat>)
    requires forall id :: id in ids ==> id in s
    ensures |ids| <= |s|
    decreases |s|
  {
    if s == [] {
      assert ids == {};
    } else {
      var last := s[|s| - 1];
      assert s == s[..|s| - 1] + [last];
      SeqBoundsSet(s[..|s| - 1], ids - {last});
      assert ids <= (ids - {last}) + {last};
    }
  }
}
