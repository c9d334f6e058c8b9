/** Texts built in fixed buffers: a token's image URI and the reason recorded for
    a migration. */
module ImageUri {
  import opened Host
  import opened Decimals

  const CAPACITY := 256
  const MAX_BASE := 200

  /** What the builder checks of the base. */
  predicate Fits(base: string) {
    base != "" && |base| + 50 <= CAPACITY
  }

  /** {base}/nft/{id}/lvl/{level}/rar/{rarity}.png */
  function Uri(base: string, id: nat, level: nat, rarity: nat): string {
    base + "/nft/" + Decimal(id) + "/lvl/" + Decimal(level) + "/rar/" + Decimal(rarity) + ".png"
  }

  function Reason(from: nat, to: nat): string {
    "migrated:" + Decimal(from) + "->" + Decimal(to)
  }

  method AppendText(buf: array<char>, idx: nat, text: string) returns (end: nat)
    requires idx + |text| <= buf.Length
    modifies buf
    ensures end == idx + |text|
    ensures buf[..] == old(buf[..idx]) + text + old(buf[end..])
  {
    forall k | 0 <= k < |text| {
      buf[idx + k] := text[k];
    }
    end := idx + |text|;
  }

  method PutText(buf: array<char>, idx: nat, text: string, ghost so: string) returns (end: nat)
    requires idx == |so| && idx + |text| <= buf.Length && buf[..idx] == so
    modifies buf
    ensures end == |so + text| && buf[..end] == so + text
  {
    end := AppendText(buf, idx, text);
    assert buf[..][..end] == so + text;
  }

  method PutNumber(buf: array<char>, idx: nat, n: u32, ghost so: string) returns (end: nat)
    requires idx == |so| && idx + 10 <= buf.Length && buf[..idx] == so
    modifies buf
    ensures end == |so + Decimal(n)| <= idx + 10 && buf[..end] == so + Decimal(n)
  {
    TenDigitsSuffice(n);
    end := AppendU32(buf, idx, n);
    assert buf[..][..end] == so + Decimal(n);
  }

  /** For every base that passes the check and all numbers the text fits the
      buffer; None stands for the panic. */
  method BuildUri(base: string, id: u32, level: u32, rarity: u32) returns (uri: Option<string>)
    ensures uri == if Fits(base) then Some(Uri(base, id, level, rarity)) else None
  {
    if base == "" || |base| + 50 > CAPACITY {
      return None;
    }
    var buf := new char[CAPACITY];
    var idx := PutText(buf, 0, base, "");
    ghost var so := base;
    assert "" + base == base;
    idx := PutText(buf, idx, "/nft/", so);
    so := so + "/nft/";
    idx := PutNumber(buf, idx, id, so);
    so := so + Decimal(id);
    idx := PutText(buf, idx, "/lvl/", so);
    so := so + "/lvl/";
    idx := PutNumber(buf, idx, level, so);
    so := so + Decimal(level);
    idx := PutText(buf, idx, "/rar/", so);
    so := so + "/rar/";
    idx := PutNumber(buf, idx, rarity, so);
    so := so + Decimal(rarity);
    idx := PutText(buf, idx, ".png", so);
    uri := Some(buf[..idx]);
  }

  /** The reason always fits its 32 bytes. */
  method MigrationReason(from: u32, to: u32) returns (reason: string)
    ensures reason == Reason(from, to)
  {
    var buf := new char[32];
    var idx := PutText(buf, 0, "migrated:", "");
    ghost var so := "migrated:";
    assert "" + "migrated:" == so;
    idx := PutNumber(buf, idx, from, so);
    so := so + Decimal(from);
    idx := PutText(buf, idx, "->", so);
    so := so + "->";
    idx := PutNumber(buf, idx, to, so);
    reason := buf[..idx];
  }

  ghost function FirstIndex(s: string, c: char): nat {
    if s == "" || s[0] == c then 0 else 1 + FirstIndex(s[1..], c)
  }

  lemma {:induction false} DelimiterAt(a: string, x: string, c: char)
    requires c !in a
    ensures FirstIndex(a + [c] + x, c) == |a|
    decreases |a|
  {
    var s := a + [c] + x;
    if a != "" {
      assert s[0] == a[0] && a[0] in a;
      assert s[1..] == a[1..] + [c] + x;
      DelimiterAt(a[1..], x, c);
    }
  }

  /** Texts without the delimiter before it can be told apart. */
  lemma SplitAt(a: string, x: string, b: string, y: string, c: char)
    requires a + [c] + x == b + [c] + y && c !in a && c !in b
    ensures a == b && x == y
  {
    DelimiterAt(a, x, c);
    DelimiterAt(b, y, c);
    var s, t := a + [c] + x, b + [c] + y;
    assert s[..|a|] == a && t[..|b|] == b;
    assert s[|a| + 1..] == x && t[|b| + 1..] == y;
  }

  lemma NoDelimiter(n: nat, c: char)
    requires !IsDigit(c)
    ensures c !in Decimal(n)
  {
  }

  lemma SplitNumber(m: nat, x: string, n: nat, y: string, c: char)
    requires Decimal(m) + [c] + x == Decimal(n) + [c] + y && !IsDigit(c)
    ensures m == n && x == y
  {
    NoDelimiter(m, c);
    NoDelimiter(n, c);
    SplitAt(Decimal(m), x, Decimal(n), y, c);
    DecimalInjective(m, n);
  }

  // ---- What the texts determine ----

  /** A text, a word ending in a slash and a number: read from the right, the
      number ends at the last slash. */
  lemma LastNumber(x: string, m: nat, y: string, n: nat, word: string)
    requires word != "" && word[|word| - 1] == '/' && x + word + Decimal(m) == y + word + Decimal(n)
    ensures x == y && m == n
  {
    NoDelimiter(m, '/');
    NoDelimiter(n, '/');
    SplitLast(x + word, Decimal(m), y + word, Decimal(n));
    CommonSuffix(x, y, word);
    DecimalInjective(m, n);
  }

  lemma SplitLast(a: string, x: string, b: string, y: string)
    requires a != "" && a[|a| - 1] == '/' && b != "" && b[|b| - 1] == '/'
    requires '/' !in x && '/' !in y && a + x == b + y
    ensures a == b && x == y
  {
    LastIndexIs(a, x);
    LastIndexIs(b, y);
    assert (a + x)[..|a|] == a && (b + y)[..|b|] == b;
    assert (a + x)[|a|..] == x && (b + y)[|b|..] == y;
  }

  /** How many characters there are up to and including the last slash. */
  ghost function UpToSlash(s: string): nat {
    if s == "" || s[|s| - 1] == '/' then |s| else UpToSlash(s[..|s| - 1])
  }

  lemma {:induction false} LastIndexIs(a: string, x: string)
    requires a != "" && a[|a| - 1] == '/' && '/' !in x
    ensures UpToSlash(a + x) == |a|
    decreases |x|
  {
    if x == "" {
      assert a + x == a;
    } else {
      assert x[|x| - 1] in x;
      assert (a + x)[..|a + x| - 1] == a + x[..|x| - 1];
      LastIndexIs(a, x[..|x| - 1]);
    }
  }

  /** The image URI determines everything it was built from: base, token, level
      and rarity. */
  lemma UriInjective(base: string, id: nat, level: nat, rarity: nat, base': string, id': nat, level': nat, rarity': nat)
    requires Uri(base, id, level, rarity) == Uri(base', id', level', rarity')
    ensures base == base' && id == id' && level == level' && rarity == rarity'
  {
    var x, x' := base + "/nft/" + Decimal(id), base' + "/nft/" + Decimal(id');
    var y, y' := x + "/lvl/" + Decimal(level), x' + "/lvl/" + Decimal(level');
    var z, z' := y + "/rar/" + Decimal(rarity), y' + "/rar/" + Decimal(rarity');
    CommonSuffix(z, z', ".png");
    LastNumber(y, rarity, y', rarity', "/rar/");
    LastNumber(x, level, x', level', "/lvl/");
    LastNumber(base, id, base', id', "/nft/");
  }

  lemma CommonSuffix(x: string, y: string, suffix: string)
    requires x + suffix == y + suffix
    ensures x == y
  {
    assert (x + suffix)[..|x|] == x && (y + suffix)[..|y|] == y;
  }

  /** The reason of a migration determines its two versions. */
  lemma ReasonInjective(from: nat, to: nat, from': nat, to': nat)
    requires Reason(from, to) == Reason(from', to')
    ensures from == from' && to == to'
  {
    assert Reason(from, to)[9..] == Decimal(from) + "-" + (">" + Decimal(to));
    assert Reason(from', to')[9..] == Decimal(from') + "-" + (">" + Decimal(to'));
    SplitNumber(from, ">" + Decimal(to), from', ">" + Decimal(to'), '-');
    assert (">" + Decimal(to))[1..] == Decimal(to) && (">" + Decimal(to'))[1..] == Decimal(to');
    DecimalInjective(to, to');
  }
}
