/** The per-account checkpoint list and the binary search over it. */
module Checkpoints {

  datatype Checkpoint = Checkpoint(sequence: nat, votes: int)

  /** Strictly increasing ledgers, none after `sequence`. */
  ghost predicate Chronological(c: seq<Checkpoint>, sequence: nat) {
    && (forall i, j :: 0 <= i < j < |c| ==> c[i].sequence < c[j].sequence)
    && (forall i :: 0 <= i < |c| ==> c[i].sequence <= sequence)
  }

  /** The votes recorded at or before ledger `s`: scan back for the last
      checkpoint that is not newer; nothing recorded means no votes. */
  function Lookup(c: seq<Checkpoint>, s: nat): int {
    if c == [] then 0
    else if c[|c| - 1].sequence <= s then c[|c| - 1].votes
    else Lookup(c[..|c| - 1], s)
  }

  function Latest(c: seq<Checkpoint>): int {
    if c == [] then 0 else c[|c| - 1].votes
  }

  /** The list after recording `votes` in ledger `sequence`: at most one entry
      per ledger, so a second write in the same ledger replaces the first. */
  function Written(c: seq<Checkpoint>, sequence: nat, votes: int): seq<Checkpoint> {
    if c != [] && c[|c| - 1].sequence == sequence
    then c[..|c| - 1] + [Checkpoint(sequence, votes)]
    else c + [Checkpoint(sequence, votes)]
  }

  /** Recording does not disturb any earlier ledger and is what the current one
      and all later ones see. */
  lemma WrittenLookup(c: seq<Checkpoint>, sequence: nat, votes: int, s: nat)
    requires Chronological(c, sequence)
    ensures Chronological(Written(c, sequence, votes), sequence)
    ensures Latest(Written(c, sequence, votes)) == votes
    ensures Lookup(Written(c, sequence, votes), s) == if s < sequence then Lookup(c, s) else votes
  {
    var w := Written(c, sequence, votes);
    assert w[..|w| - 1] == if c != [] && c[|c| - 1].sequence == sequence then c[..|c| - 1] else c;
  }

  /** From the current ledger on, the lookup is the latest entry. */
  lemma LookupNow(c: seq<Checkpoint>, sequence: nat, s: nat)
    requires Chronological(c, sequence) && s >= sequence
    ensures Lookup(c, s) == Latest(c)
  {
  }

  lemma {:induction false} LookupAt(c: seq<Checkpoint>, sequence: nat, s: nat, i: nat)
    requires Chronological(c, sequence) && i < |c|
    requires c[i].sequence <= s && (i + 1 < |c| ==> s < c[i + 1].sequence)
    ensures Lookup(c, s) == c[i].votes
    decreases |c|
  {
    if i + 1 < |c| {
      assert s < c[|c| - 1].sequence;
      LookupAt(c[..|c| - 1], sequence, s, i);
    }
  }

  lemma {:induction false} LookupBeforeAll(c: seq<Checkpoint>, s: nat)
    requires forall i :: 0 <= i < |c| ==> s < c[i].sequence
    ensures Lookup(c, s) == 0
    decreases |c|
  {
    if c != [] {
      LookupBeforeAll(c[..|c| - 1], s);
    }
  }

  /** The two fast paths and the binary search agree with the linear scan. */
  method FindPastVotes(ckpts: seq<Checkpoint>, sequence: nat, ghost now: nat) returns (votes: int)
    requires Chronological(ckpts, now)
    ensures votes == Lookup(ckpts, sequence)
  {
    var len := |ckpts|;
    if len == 0 {
      return 0;
    }
    if ckpts[len - 1].sequence <= sequence {
      return ckpts[len - 1].votes;
    }
    if ckpts[0].sequence > sequence {
      LookupBeforeAll(ckpts, sequence);
      return 0;
    }
    var low, high := 0, len - 1;
    while low < high
      invariant 0 <= low <= high < len
      invariant ckpts[low].sequence <= sequence
      invariant high + 1 < len ==> sequence < ckpts[high + 1].sequence
    {
      var mid := low + (high - low + 1) / 2;
      if ckpts[mid].sequence <= sequence {
        low := mid;
      } else {
        high := mid - 1;
      }
    }
    LookupAt(ckpts, now, sequence, low);
    votes := ckpts[low].votes;
  }
}
