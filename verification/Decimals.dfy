/** Decimal text of unsigned numbers, printed into a byte buffer and parsed
    back. A byte is a character here; only ASCII ones matter. */
module Decimals {
  import opened Host

  predicate IsDigit(c: char) {
    '0' <= c <= '9'
  }

  function DigitOf(n: nat): (c: char)
    requires n < 10
    ensures IsDigit(c) && ValueOf(c) == n
  {
    '0' + n as char
  }

  function ValueOf(c: char): (n: nat)
    requires IsDigit(c)
    ensures n < 10
  {
    (c - '0') as nat
  }

  /** The digits of a positive number; nothing for 0. */
  function Digits(n: nat): (s: string)
    ensures forall i :: 0 <= i < |s| ==> IsDigit(s[i])
  {
    if n == 0 then "" else Digits(n / 10) + [DigitOf(n % 10)]
  }

  function Decimal(n: nat): (s: string)
    ensures forall i :: 0 <= i < |s| ==> IsDigit(s[i])
  {
    if n == 0 then "0" else Digits(n)
  }

  ghost predicate AllDigits(s: string) {
    forall i :: 0 <= i < |s| ==> IsDigit(s[i])
  }

  /** The number written, however long. */
  ghost function Value(s: string): nat
    requires AllDigits(s)
  {
    if s == "" then 0 else Value(s[..|s| - 1]) * 10 + ValueOf(s[|s| - 1])
  }

  // ---- Printing ----

  lemma {:induction false} DigitsLength(n: nat, k: nat)
    requires n < Pow10(k)
    ensures |Digits(n)| <= k
    decreases k
  {
    if n > 0 {
      assert k > 0;
      DigitsLength(n / 10, k - 1);
    }
  }

  function Pow10(k: nat): nat {
    if k == 0 then 1 else 10 * Pow10(k - 1)
  }

  lemma TenDigitsSuffice(n: u32)
    ensures 1 <= |Decimal(n)| <= 10
  {
    assert Pow10(10) == 10_000_000_000 by {
      assert Pow10(5) == 100_000;
    }
    DigitsLength(n, 10);
  }

  /** Dropping the lowest digit of a leading part leaves a leading part. */
  lemma LowestDigit(n: nat, v: nat)
    requires v > 0 && |Digits(v)| <= |Digits(n)| && Digits(n)[..|Digits(v)|] == Digits(v)
    ensures |Digits(v)| == |Digits(v / 10)| + 1 && Digits(n)[..|Digits(v / 10)|] == Digits(v / 10)
    ensures Digits(n)[|Digits(v)| - 1] == DigitOf(v % 10)
  {
    assert Digits(v) == Digits(v / 10) + [DigitOf(v % 10)];
    assert Digits(n)[..|Digits(v / 10)|] == Digits(n)[..|Digits(v)|][..|Digits(v / 10)|];
    assert Digits(n)[|Digits(v)| - 1] == Digits(n)[..|Digits(v)|][|Digits(v)| - 1];
  }

  /** The first loop: the digits from the lowest up, in a scratch buffer. */
  method CollectDigits(n: u32) returns (tmp: array<char>, i: nat)
    ensures fresh(tmp) && tmp.Length == 10 && i == |Digits(n)| <= 10
    ensures forall k :: 0 <= k < i ==> tmp[k] == Digits(n)[i - 1 - k]
  {
    TenDigitsSuffice(n);
    tmp := new char[10];
    i := 0;
    var v := n;
    while v > 0 && i < 10
      invariant 0 <= i <= 10 && 0 <= v && i + |Digits(v)| == |Digits(n)|
      invariant forall k :: 0 <= k < i ==> tmp[k] == Digits(n)[|Digits(n)| - 1 - k]
      invariant Digits(n)[..|Digits(v)|] == Digits(v)
    {
      LowestDigit(n, v);
      tmp[i] := DigitOf(v % 10);
      v := v / 10;
      i := i + 1;
    }
  }

  /** The second loop: the scratch buffer copied in reverse. */
  method CopyBack(buf: array<char>, idx: nat, tmp: array<char>, i: nat, ghost digits: string) returns (end: nat)
    requires buf != tmp && i == |digits| && i <= tmp.Length && idx + i <= buf.Length
    requires forall k :: 0 <= k < i ==> tmp[k] == digits[i - 1 - k]
    modifies buf
    ensures end == idx + i
    ensures buf[..] == old(buf[..idx]) + digits + old(buf[end..])
  {
    end := idx;
    var j := 0;
    while j < i
      invariant 0 <= j <= i && end == idx + j
      invariant buf[..end] == old(buf[..idx]) + digits[..j]
      invariant buf[end..] == old(buf[end..])
    {
      buf[end] := tmp[i - 1 - j];
      end := end + 1;
      j := j + 1;
    }
    assert buf[..] == buf[..end] + buf[end..];
    assert digits[..j] == digits;
  }

  /** Writes the decimal text of `n` at `idx`. */
  method AppendU32(buf: array<char>, idx: nat, n: u32) returns (end: nat)
    requires idx + |Decimal(n)| <= buf.Length
    modifies buf
    ensures end == idx + |Decimal(n)|
    ensures buf[..] == old(buf[..idx]) + Decimal(n) + old(buf[end..])
  {
    if n == 0 {
      buf[idx] := '0';
      return idx + 1;
    }
    var tmp, i := CollectDigits(n);
    end := CopyBack(buf, idx, tmp, i, Digits(n));
  }

  // ---- Parsing ----

  function SaturatingDigit(v: nat, d: nat): nat {
    var tens := if v * 10 > U32_MAX then U32_MAX else v * 10;
    if tens + d > U32_MAX then U32_MAX else tens + d
  }

  predicate Parses(s: string) {
    1 <= |s| <= 10 && forall i :: 0 <= i < |s| ==> IsDigit(s[i])
  }

  /** One to ten digits give their value, as far as it fits; anything else is 0. */
  method ParseU32(s: string) returns (v: nat)
    ensures v == if Parses(s) then (if Value(s) <= U32_MAX then Value(s) else U32_MAX) else 0
  {
    if |s| == 0 || |s| > 10 {
      return 0;
    }
    v := 0;
    var i := 0;
    while i < |s|
      invariant 0 <= i <= |s|
      invariant AllDigits(s[..i])
      invariant v == if Value(s[..i]) <= U32_MAX then Value(s[..i]) else U32_MAX
    {
      if !IsDigit(s[i]) {
        return 0;
      }
      assert s[..i + 1][..i] == s[..i];
      v := SaturatingDigit(v, ValueOf(s[i]));
      i := i + 1;
    }
    assert s[..|s|] == s;
  }

  /** The same as a function, for use in specifications. */
  function Parsed(s: string): (v: nat)
    ensures v == if Parses(s) then (if Value(s) <= U32_MAX then Value(s) else U32_MAX) else 0
  {
    if Parses(s) then Fold(s) else 0
  }

  function Fold(s: string): (v: nat)
    requires forall i :: 0 <= i < |s| ==> IsDigit(s[i])
    ensures v == if Value(s) <= U32_MAX then Value(s) else U32_MAX
  {
    if s == "" then 0 else SaturatingDigit(Fold(s[..|s| - 1]), ValueOf(s[|s| - 1]))
  }

  lemma {:induction false} ValueOfDigits(n: nat)
    ensures Value(Digits(n)) == n
    decreases n
  {
    if n > 0 {
      ValueOfDigits(n / 10);
      assert Digits(n)[..|Digits(n)| - 1] == Digits(n / 10);
    }
  }

  lemma ValueOfDecimal(n: nat)
    ensures AllDigits(Decimal(n)) && Value(Decimal(n)) == n
  {
    if n == 0 {
      assert "0"[..0] == "";
    } else {
      ValueOfDigits(n);
    }
  }

  /** Printing and parsing give the number back. */
  lemma RoundTrip(n: u32)
    ensures Parsed(Decimal(n)) == n
  {
    TenDigitsSuffice(n);
    ValueOfDecimal(n);
  }

  lemma DecimalInjective(a: nat, b: nat)
    requires Decimal(a) == Decimal(b)
    ensures a == b
  {
    ValueOfDecimal(a);
    ValueOfDecimal(b);
  }
}
