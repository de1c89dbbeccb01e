/** The few `java.lang.String` operations the modelled code depends on:
    `trim().isEmpty()`, `hashCode()` and the decimal rendering of an `int`
    in a string concatenation. */
module JavaText {
  import opened Common

  /** `String.trim` strips every leading and trailing character whose code
      is at most U+0020. */
  predicate IsTrimmable(c: char) {
    c <= ' '
  }

  /** A string that `trim()` turns into the empty string. */
  predicate IsBlank(s: string) {
    forall i :: 0 <= i < |s| ==> IsTrimmable(s[i])
  }

  /** `s` without its leading trimmable characters. */
  function TrimStart(s: string): (r: string)
    ensures |r| <= |s| && r == s[|s| - |r|..]
    ensures r == [] || !IsTrimmable(r[0])
    ensures forall i :: 0 <= i < |s| - |r| ==> IsTrimmable(s[i])
  {
    if s == [] || !IsTrimmable(s[0]) then s else TrimStart(s[1..])
  }

  /** `s` without its trailing trimmable characters. */
  function TrimEnd(s: string): (r: string)
    ensures |r| <= |s| && r == s[..|r|]
    ensures r == [] || !IsTrimmable(r[|r| - 1])
    ensures forall i :: |r| <= i < |s| ==> IsTrimmable(s[i])
  {
    if s == [] || !IsTrimmable(s[|s| - 1]) then s else TrimEnd(s[..|s| - 1])
  }

  /** `String.trim()` */
  function Trim(s: string): string {
    TrimEnd(TrimStart(s))
  }

  /** `s.trim().isEmpty()` holds exactly for the blank strings. */
  lemma TrimEmptyIffBlank(s: string)
    ensures Trim(s) == [] <==> IsBlank(s)
  {
  }

  /** The running value of `String.hashCode()`: `h = 31 * h + c` over the
      characters, reduced modulo 2^32 as Java's `int` arithmetic does; the
      result is the bit pattern of the Java `int`, read unsigned. */
  function HashBits(s: string): (h: nat)
    ensures h < TWO_32
    decreases |s|
  {
    if s == [] then 0 else (HashBits(s[..|s| - 1]) * 31 + s[|s| - 1] as int) % TWO_32
  }

  /** `String.hashCode()` as a 32-bit pattern, ready for `^`. */
  function HashCode(s: string): bv32 {
    HashBits(s) as bv32
  }

  function Pow(b: nat, e: nat): nat
    decreases e
  {
    if e == 0 then 1 else b * Pow(b, e - 1)
  }

  /** The sum `String.hashCode` is documented as, before reduction:
      s[0]·31^(n-1) + s[1]·31^(n-2) + … + s[n-1]. */
  function HashSum(s: string): nat
    decreases |s|
  {
    if s == [] then 0 else s[0] as nat * Pow(31, |s| - 1) + HashSum(s[1..])
  }

  /** Appending a character to the sum shifts every term up one power. */
  lemma {:induction false} HashSumAppend(s: string, c: char)
    ensures HashSum(s + [c]) == HashSum(s) * 31 + c as nat
    decreases |s|
  {
    if s == [] {
      assert [c][1..] == [];
    } else {
      var t := s + [c];
      assert t[0] == s[0] && t[1..] == s[1..] + [c];
      HashSumAppend(s[1..], c);
      var p := Pow(31, |s| - 1);
      assert Pow(31, |t| - 1) == 31 * p;
      calc {
        HashSum(t);
        s[0] as nat * (31 * p) + HashSum(s[1..] + [c]);
        s[0] as nat * (31 * p) + HashSum(s[1..]) * 31 + c as nat;
        { assert s[0] as nat * (31 * p) == (s[0] as nat * p) * 31; }
        (s[0] as nat * p + HashSum(s[1..])) * 31 + c as nat;
      }
    }
  }

  /** Reducing before the multiply-add does not change the residue. */
  lemma ReduceFirst(a: nat, c: nat)
    ensures ((a % TWO_32) * 31 + c) % TWO_32 == (a * 31 + c) % TWO_32
  {
    var q := a / TWO_32;
    var r := a % TWO_32;
    assert a == q * TWO_32 + r;
    assert a * 31 + c == (r * 31 + c) + (q * 31) * TWO_32;
  }

  /** Java's closed form of `String.hashCode()`: the polynomial in 31 over
      the characters, modulo 2^32. */
  lemma {:induction false} HashBitsClosedForm(s: string)
    ensures HashBits(s) == HashSum(s) % TWO_32
    decreases |s|
  {
    if s != [] {
      var init, c := s[..|s| - 1], s[|s| - 1];
      assert s == init + [c];
      HashBitsClosedForm(init);
      HashSumAppend(init, c);
      ReduceFirst(HashSum(init), c as nat);
    }
  }

  predicate IsDigit(c: char) {
    '0' <= c <= '9'
  }

  function DigitChar(d: int): (c: char)
    requires 0 <= d < 10
    ensures IsDigit(c) && c as int - '0' as int == d
  {
    (d + '0' as int) as char
  }

  function DigitValue(c: char): (d: int)
    requires IsDigit(c)
    ensures 0 <= d < 10
  {
    c as int - '0' as int
  }

  /** Decimal digits of `n`, most significant first, no leading zero. */
  function NatToString(n: nat): (r: string)
    ensures |r| >= 1
    ensures forall i :: 0 <= i < |r| ==> IsDigit(r[i])
    ensures n >= 10 <==> |r| >= 2
    decreases n
  {
    if n < 10 then [DigitChar(n)] else NatToString(n / 10) + [DigitChar(n % 10)]
  }

  /** Reads a non-empty string of decimal digits back as a number. */
  function ParseNat(s: string): nat
    requires |s| >= 1
    requires forall i :: 0 <= i < |s| ==> IsDigit(s[i])
    decreases |s|
  {
    if |s| == 1 then DigitValue(s[0])
    else ParseNat(s[..|s| - 1]) * 10 + DigitValue(s[|s| - 1])
  }

  /** Reading the rendering of `n` gives back `n`. */
  lemma {:induction false} ParseNatToString(n: nat)
    ensures ParseNat(NatToString(n)) == n
    decreases n
  {
    if n >= 10 {
      var r := NatToString(n);
      assert r[..|r| - 1] == NatToString(n / 10);
      ParseNatToString(n / 10);
    }
  }

  /** The decimal rendering of an `int`, as string concatenation does it. */
  function IntToString(n: int): (r: string)
    ensures |r| >= 1 && ':' !in r
    ensures r[0] == '-' <==> n < 0
  {
    if n < 0 then "-" + NatToString(-n) else NatToString(n)
  }

  /** Distinct numbers render as distinct strings. */
  lemma IntToStringInjective(a: int, b: int)
    requires IntToString(a) == IntToString(b)
    ensures a == b
  {
    var r := IntToString(a);
    if a < 0 {
      assert b < 0;
      assert r == "-" + NatToString(-a) == "-" + NatToString(-b);
      assert NatToString(-a) == r[1..] == NatToString(-b);
      ParseNatToString(-a);
      ParseNatToString(-b);
    } else {
      assert b >= 0;
      ParseNatToString(a);
      ParseNatToString(b);
    }
  }

  /** `a + ":" + d` splits uniquely at its last colon when `d` has none. */
  lemma ColonJoinInjective(a1: string, d1: string, a2: string, d2: string)
    requires ':' !in d1 && ':' !in d2
    requires a1 + ":" + d1 == a2 + ":" + d2
    ensures a1 == a2 && d1 == d2
  {
    var s := a1 + ":" + d1;
    LastColon(a1, d1);
    LastColon(a2, d2);
    assert |a1| == |a2|;
    assert a1 == s[..|a1|] == a2;
    assert d1 == s[|a1| + 1..] == d2;
  }

  /** In `a + ":" + d` with no colon in `d`, the colon at `|a|` is the last. */
  lemma LastColon(a: string, d: string)
    requires ':' !in d
    ensures (a + ":" + d)[|a|] == ':'
    ensures forall k :: |a| < k < |a| + 1 + |d| ==> (a + ":" + d)[k] != ':'
  {
    var s := a + ":" + d;
    forall k | |a| < k < |s|
      ensures s[k] != ':'
    {
      assert s[k] == d[k - |a| - 1];
    }
  }
}
