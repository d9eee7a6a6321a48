/**
 * Strings as the pages handle them: ASCII letter-case folding (the model of
 * `String.prototype.toLowerCase`), substring search (`String.prototype.includes`)
 * and decimal rendering of integers (`Number.prototype.toString`).
 */
module Text {

  /** One character of `toLowerCase`, restricted to ASCII letters. */
  function Lower(c: char): char
  {
    if 'A' <= c <= 'Z' then (c as int + 32) as char else c
  }

  /** `s.toLowerCase()`: every character folded, the length kept. */
  function LowerStr(s: string): string
  {
    seq(|s|, i requires 0 <= i < |s| => Lower(s[i]))
  }

  /** `tags.map((tag) => tag.toLowerCase())` */
  function LowerAll(ss: seq<string>): seq<string>
  {
    seq(|ss|, i requires 0 <= i < |ss| => LowerStr(ss[i]))
  }

  /** Two strings that differ only in letter case. */
  predicate SameUpToCase(a: string, b: string)
  {
    LowerStr(a) == LowerStr(b)
  }

  /** Lower-casing twice is lower-casing once. */
  lemma LowerStrIdempotent(s: string)
    ensures LowerStr(LowerStr(s)) == LowerStr(s)
  {
    forall i | 0 <= i < |s|
      ensures LowerStr(LowerStr(s))[i] == LowerStr(s)[i]
    {
      LowerIdempotent(s[i]);
    }
  }

  lemma LowerIdempotent(c: char)
    ensures Lower(Lower(c)) == Lower(c)
  {
  }

  lemma LowerAllIdempotent(ss: seq<string>)
    ensures LowerAll(LowerAll(ss)) == LowerAll(ss)
  {
    forall i | 0 <= i < |ss|
      ensures LowerAll(LowerAll(ss))[i] == LowerAll(ss)[i]
    {
      LowerStrIdempotent(ss[i]);
    }
  }

  /** A string that is already lower case is its own lower-casing. */
  lemma LowerStrOfLowered(s: string)
    requires forall i :: 0 <= i < |s| ==> !('A' <= s[i] <= 'Z')
    ensures LowerStr(s) == s
  {
  }

  lemma LowerStrSlice(s: string, i: nat, j: nat)
    requires i <= j <= |s|
    ensures LowerStr(s)[i..j] == LowerStr(s[i..j])
  {
  }

  predicate StartsWith(s: string, p: string)
  {
    |p| <= |s| && s[..|p|] == p
  }

  /** `s.includes(p)`: `p` occurs in `s` at some offset; the empty string occurs everywhere. */
  predicate Contains(s: string, p: string)
    decreases |s|
  {
    StartsWith(s, p) || (s != [] && Contains(s[1..], p))
  }

  /** An occurrence at offset `k` makes `Contains` true. */
  lemma {:induction false} ContainsAt(s: string, p: string, k: nat)
    requires k + |p| <= |s| && s[k..k + |p|] == p
    ensures Contains(s, p)
    decreases k
  {
    if k > 0 {
      assert s[1..][k - 1..k - 1 + |p|] == s[k..k + |p|];
      ContainsAt(s[1..], p, k - 1);
    } else {
      assert s[..|p|] == s[k..k + |p|];
    }
  }

  /** `Contains` is witnessed by an offset. */
  lemma {:induction false} ContainsOffset(s: string, p: string) returns (k: nat)
    requires Contains(s, p)
    ensures k + |p| <= |s| && s[k..k + |p|] == p
    decreases |s|
  {
    if StartsWith(s, p) {
      k := 0;
    } else {
      var k' := ContainsOffset(s[1..], p);
      assert s[1..][k'..k' + |p|] == s[k' + 1..k' + 1 + |p|];
      k := k' + 1;
    }
  }

  /** A substring of a substring is a substring. */
  lemma ContainsTransitive(s: string, q: string, p: string)
    requires Contains(s, q) && Contains(q, p)
    ensures Contains(s, p)
  {
    var k1 := ContainsOffset(s, q);
    var k2 := ContainsOffset(q, p);
    forall i | 0 <= i < |p|
      ensures s[k1 + k2..k1 + k2 + |p|][i] == p[i]
    {
      assert s[k1..k1 + |q|][k2 + i] == q[k2 + i];
    }
    ContainsAt(s, p, k1 + k2);
  }

  /** Folding both sides keeps an occurrence. */
  lemma ContainsLower(s: string, p: string)
    requires Contains(s, p)
    ensures Contains(LowerStr(s), LowerStr(p))
  {
    var k := ContainsOffset(s, p);
    LowerStrSlice(s, k, k + |p|);
    ContainsAt(LowerStr(s), LowerStr(p), k);
  }

  /** A non-empty string does not occur in the empty string. */
  lemma NotContainedInEmpty(p: string)
    requires p != []
    ensures !Contains([], p)
  {
  }

  // ---------------------------------------------------------------------
  // Decimal rendering

  function DigitChar(d: nat): char
    requires d < 10
  {
    "0123456789"[d]
  }

  predicate IsDigit(c: char)
  {
    '0' <= c <= '9'
  }

  function DigitValue(c: char): nat
    requires IsDigit(c)
  {
    c as int - '0' as int
  }

  /** The decimal digits of `n`, most significant first, with no leading zero. */
  function NatToString(n: nat): (r: string)
    ensures r != [] && forall i :: 0 <= i < |r| ==> IsDigit(r[i])
    ensures |r| > 1 ==> r[0] != '0'
    ensures r[0] == '0' <==> n == 0
  {
    if n < 10 then [DigitChar(n)] else NatToString(n / 10) + [DigitChar(n % 10)]
  }

  /** The value of a string of decimal digits. */
  function DigitsValue(s: string): nat
    requires forall i :: 0 <= i < |s| ==> IsDigit(s[i])
  {
    if s == [] then 0 else DigitsValue(s[..|s| - 1]) * 10 + DigitValue(s[|s| - 1])
  }

  /** `n.toString()` for an integer `n`: a minus sign before the digits of `|n|`. */
  function IntToString(n: int): string
  {
    if n < 0 then "-" + NatToString(-n) else NatToString(n)
  }

  /** The inverse of `IntToString`. */
  function ParseInt(s: string): int
    requires s != []
    requires forall i :: 0 <= i < |s| ==> IsDigit(s[i]) || (i == 0 && s[i] == '-')
  {
    if s[0] == '-' then -(DigitsValue(s[1..]) as int) else DigitsValue(s)
  }

  /** Reading back the digits of `n` gives `n`. */
  lemma {:induction false} NatToStringValue(n: nat)
    ensures DigitsValue(NatToString(n)) == n
  {
    var r := NatToString(n);
    if n >= 10 {
      NatToStringValue(n / 10);
      assert r[..|r| - 1] == NatToString(n / 10);
    }
  }

  /** `IntToString` round-trips through `ParseInt`. */
  lemma IntToStringRoundTrip(n: int)
    ensures var s := IntToString(n);
      s != [] && (forall i :: 0 <= i < |s| ==> IsDigit(s[i]) || (i == 0 && s[i] == '-')) &&
      ParseInt(s) == n
  {
    if n < 0 {
      var m: nat := -n;
      NegativeRoundTrip(m);
      assert IntToString(n) == "-" + NatToString(m);
    } else {
      NatToStringValue(n);
    }
  }

  lemma NegativeRoundTrip(m: nat)
    ensures var s := "-" + NatToString(m);
      (forall i :: 0 <= i < |s| ==> IsDigit(s[i]) || (i == 0 && s[i] == '-')) &&
      ParseInt(s) == -(m as int)
  {
    var d := NatToString(m);
    var s := "-" + d;
    assert s[0] == '-' && s[1..] == d;
    forall i | 0 < i < |s|
      ensures IsDigit(s[i])
    {
      assert s[i] == d[i - 1];
    }
    NatToStringValue(m);
  }
}
