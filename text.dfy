/**
 * The pieces of Python string formatting the core relies on: `str(n)` and the
 * zero-padded `{n:0Wd}` format of a natural number, `sep.join(parts)` and
 * `s.split(c)`.  Each formatter comes with the parser that undoes it.
 */
module Text {

  predicate IsDigit(c: char) { '0' <= c <= '9' }

  predicate AllDigits(s: string) { forall i :: 0 <= i < |s| ==> IsDigit(s[i]) }

  function DigitValue(c: char): nat
    requires IsDigit(c)
  {
    c as int - '0' as int
  }

  function DigitChar(d: nat): (c: char)
    requires d < 10
    ensures IsDigit(c) && DigitValue(c) == d
  {
    ('0' as int + d) as char
  }

  function Pow10(k: nat): (p: nat)
    ensures p >= 1
  {
    if k == 0 then 1 else 10 * Pow10(k - 1)
  }

  /** `str(n)` for a natural number: its decimal digits, most significant first. */
  function NatToString(n: nat): (s: string)
    ensures |s| >= 1 && AllDigits(s)
  {
    if n < 10 then [DigitChar(n)] else NatToString(n / 10) + [DigitChar(n % 10)]
  }

  /** `str(i)` for any integer: a minus sign in front of the digits of a negative number. */
  function IntToString(i: int): (s: string)
    ensures forall k :: 0 <= k < |s| ==> IsDigit(s[k]) || s[k] == '-'
  {
    if i < 0 then "-" + NatToString(-i) else NatToString(i)
  }

  /** The strings `int(s)` accepts among those `IntToString` produces: digits, optionally after a minus sign. */
  predicate IsIntText(s: string)
  {
    AllDigits(s) || (|s| >= 1 && s[0] == '-' && AllDigits(s[1..]))
  }

  function ParseInt(s: string): int
    requires IsIntText(s)
  {
    if |s| >= 1 && s[0] == '-' then 0 - ParseDigits(s[1..]) else ParseDigits(s)
  }

  lemma ParseIntToString(i: int)
    ensures IsIntText(IntToString(i)) && ParseInt(IntToString(i)) == i
  {
    if i < 0 {
      assert IntToString(i)[1..] == NatToString(-i);
      ParseNatToString(-i);
    } else {
      ParseNatToString(i);
    }
  }

  function Zeros(k: nat): (s: string)
    ensures |s| == k && forall i :: 0 <= i < k ==> s[i] == '0'
  {
    if k == 0 then "" else Zeros(k - 1) + "0"
  }

  /** The format `{n:0Wd}`: the digits of `n`, padded with zeros on the left up to `width` characters. */
  function ZeroPad(n: nat, width: nat): (s: string)
    ensures AllDigits(s)
    ensures |s| == if |NatToString(n)| < width then width else |NatToString(n)|
  {
    var digits := NatToString(n);
    (if |digits| < width then Zeros(width - |digits|) else "") + digits
  }

  /** Reads a string of decimal digits back as a number; `int(s)` for a digit string. */
  function ParseDigits(s: string): nat
    requires AllDigits(s)
  {
    if s == [] then 0 else ParseDigits(s[..|s| - 1]) * 10 + DigitValue(s[|s| - 1])
  }

  lemma {:induction false} ParseNatToString(n: nat)
    ensures ParseDigits(NatToString(n)) == n
  {
    if n >= 10 {
      var s := NatToString(n);
      assert s[..|s| - 1] == NatToString(n / 10);
      ParseNatToString(n / 10);
    }
  }

  lemma {:induction false} ParseZeros(k: nat)
    ensures ParseDigits(Zeros(k)) == 0
  {
    if k > 0 {
      assert Zeros(k)[..k - 1] == Zeros(k - 1);
      ParseZeros(k - 1);
    }
  }

  lemma {:induction false} ParseIgnoresLeadingZeros(k: nat, s: string)
    requires AllDigits(s)
    ensures AllDigits(Zeros(k) + s) && ParseDigits(Zeros(k) + s) == ParseDigits(s)
    decreases |s|
  {
    var t := Zeros(k) + s;
    assert AllDigits(t) by {
      forall i | 0 <= i < |t| ensures IsDigit(t[i]) {
        if i >= k { assert t[i] == s[i - k]; }
      }
    }
    if s == [] {
      assert t == Zeros(k);
      ParseZeros(k);
    } else {
      assert t[..|t| - 1] == Zeros(k) + s[..|s| - 1];
      ParseIgnoresLeadingZeros(k, s[..|s| - 1]);
    }
  }

  /** Parsing undoes zero padding, whatever the width. */
  lemma ParseZeroPad(n: nat, width: nat)
    ensures ParseDigits(ZeroPad(n, width)) == n
  {
    var digits := NatToString(n);
    ParseNatToString(n);
    if |digits| < width {
      ParseIgnoresLeadingZeros(width - |digits|, digits);
    } else {
      assert ZeroPad(n, width) == digits;
    }
  }

  lemma ZeroPadInjective(n: nat, m: nat, width: nat)
    requires ZeroPad(n, width) == ZeroPad(m, width)
    ensures n == m
  {
    ParseZeroPad(n, width);
    ParseZeroPad(m, width);
  }

  /** A number below 10^k (k >= 1) has at most k digits. */
  lemma {:induction false} NatToStringAtMost(n: nat, k: nat)
    requires 1 <= k && n < Pow10(k)
    ensures |NatToString(n)| <= k
  {
    if n >= 10 {
      assert k >= 2;
      assert n / 10 < Pow10(k - 1);
      NatToStringAtMost(n / 10, k - 1);
    }
  }

  /** A number at or above 10^k has more than k digits. */
  lemma {:induction false} NatToStringMoreThan(n: nat, k: nat)
    requires Pow10(k) <= n
    ensures |NatToString(n)| > k
  {
    if k > 0 {
      assert Pow10(k - 1) <= n / 10;
      NatToStringMoreThan(n / 10, k - 1);
    }
  }

  /** The length of the run of digits a string starts with. */
  function DigitRun(s: string): (n: nat)
    ensures n <= |s|
  {
    if s == [] || !IsDigit(s[0]) then 0 else 1 + DigitRun(s[1..])
  }

  lemma {:induction false} DigitRunBeforeDash(p: string, q: string)
    requires AllDigits(p)
    ensures DigitRun(p + "-" + q) == |p|
  {
    if p != [] {
      assert (p + "-" + q)[1..] == p[1..] + "-" + q;
      DigitRunBeforeDash(p[1..], q);
    }
  }

  /** Two "digits, dash, rest" strings split at the same dash. */
  lemma DashSplit(p1: string, q1: string, p2: string, q2: string)
    requires AllDigits(p1) && AllDigits(p2)
    requires p1 + "-" + q1 == p2 + "-" + q2
    ensures p1 == p2 && q1 == q2
  {
    var s := p1 + "-" + q1;
    DigitRunBeforeDash(p1, q1);
    DigitRunBeforeDash(p2, q2);
    assert p1 == s[..|p1|] == p2;
    assert q1 == s[|p1| + 1..] == q2;
  }

  /** `sep.join(parts)`. */
  function Join(parts: seq<string>, sep: string): string
  {
    if |parts| == 0 then ""
    else if |parts| == 1 then parts[0]
    else parts[0] + sep + Join(parts[1..], sep)
  }

  /** A character in no part and not in the separator is not in the joined text. */
  lemma {:induction false} JoinAvoids(parts: seq<string>, sep: string, c: char)
    requires c !in sep
    requires forall i :: 0 <= i < |parts| ==> c !in parts[i]
    ensures c !in Join(parts, sep)
  {
    if |parts| > 1 {
      JoinAvoids(parts[1..], sep, c);
    }
  }

  /** `s.split(c)` for a one-character separator: the pieces between the separators, empty ones included. */
  function Split(s: string, c: char): (parts: seq<string>)
    ensures |parts| >= 1
  {
    if s == [] then [""]
    else
      var rest := Split(s[1..], c);
      if s[0] == c then [""] + rest else [[s[0]] + rest[0]] + rest[1..]
  }

  lemma {:induction false} SplitWithout(p: string, c: char)
    requires c !in p
    ensures Split(p, c) == [p]
  {
    if p != [] {
      SplitWithout(p[1..], c);
      assert [p[0]] + p[1..] == p;
    }
  }

  lemma {:induction false} SplitAfterPiece(p: string, t: string, c: char)
    requires c !in p
    ensures Split(p + [c] + t, c) == [p] + Split(t, c)
  {
    var s := p + [c] + t;
    if p == [] {
      assert s[1..] == t;
    } else {
      assert s[1..] == p[1..] + [c] + t;
      SplitAfterPiece(p[1..], t, c);
      assert [p[0]] + p[1..] == p;
    }
  }

  /** Splitting at the separator undoes joining with it, when no part contains the separator. */
  lemma {:induction false} SplitJoin(parts: seq<string>, c: char)
    requires |parts| >= 1
    requires forall i :: 0 <= i < |parts| ==> c !in parts[i]
    ensures Split(Join(parts, [c]), c) == parts
  {
    if |parts| == 1 {
      SplitWithout(parts[0], c);
    } else {
      SplitJoin(parts[1..], c);
      SplitAfterPiece(parts[0], Join(parts[1..], [c]), c);
      assert [parts[0]] + parts[1..] == parts;
    }
  }
}
