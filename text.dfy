/**
 * Character, string and integer operations of java.lang that the programs rely
 * on, with case mapping restricted to ASCII (no Unicode case mapping).
 */
module Text {

  /** Character.toLowerCase on ASCII letters; every other character is unchanged. */
  function Lower(c: char): (r: char)
    ensures 'A' <= c <= 'Z' ==> r as int == c as int + 32
    ensures !('A' <= c <= 'Z') ==> r == c
    ensures !('A' <= r <= 'Z')
  {
    if 'A' <= c <= 'Z' then (c as int + 32) as char else c
  }

  /** Character.toUpperCase on ASCII letters; every other character is unchanged. */
  function Upper(c: char): (r: char)
    ensures 'a' <= c <= 'z' ==> r as int == c as int - 32
    ensures !('a' <= c <= 'z') ==> r == c
    ensures !('a' <= r <= 'z')
  {
    if 'a' <= c <= 'z' then (c as int - 32) as char else c
  }

  /** String.toLowerCase: same length, each character lowered. */
  function LowerString(s: string): (r: string)
    ensures |r| == |s|
    ensures forall i :: 0 <= i < |s| ==> r[i] == Lower(s[i])
  {
    if s == [] then [] else [Lower(s[0])] + LowerString(s[1..])
  }

  /** The concatenation of a sequence of strings. */
  function Concat(ss: seq<string>): string {
    if ss == [] then [] else ss[0] + Concat(ss[1..])
  }

  /** Concatenating a string in front of more strings. */
  lemma ConcatCons(t: string, rest: seq<string>)
    ensures Concat([t] + rest) == t + Concat(rest)
  {
    assert ([t] + rest)[0] == t && ([t] + rest)[1..] == rest;
  }

  /** String.toUpperCase: same length, each character raised. */
  function UpperString(s: string): (r: string)
    ensures |r| == |s|
    ensures forall i :: 0 <= i < |s| ==> r[i] == Upper(s[i])
  {
    if s == [] then [] else [Upper(s[0])] + UpperString(s[1..])
  }

  /** String.replace(old, new) for single characters. */
  function ReplaceChar(s: string, from: char, to: char): (r: string)
    ensures |r| == |s|
    ensures forall i :: 0 <= i < |s| ==> r[i] == (if s[i] == from then to else s[i])
  {
    if s == [] then [] else [if s[0] == from then to else s[0]] + ReplaceChar(s[1..], from, to)
  }

  /** String.indexOf(c): the first index of c in s, or -1 when c does not occur. */
  function IndexOf(s: string, c: char): (r: int)
    ensures -1 <= r < |s|
    ensures r == -1 <==> c !in s
    ensures 0 <= r ==> s[r] == c && c !in s[..r]
  {
    if s == [] then -1
    else if s[0] == c then 0
    else
      var k := IndexOf(s[1..], c);
      if k == -1 then -1 else k + 1
  }

  /**
   * String.compareTo: the difference of the first pair of differing characters,
   * or the difference of the lengths when one string is a prefix of the other.
   */
  function CompareTo(a: string, b: string): int {
    if a == [] || b == [] then |a| - |b|
    else if a[0] != b[0] then a[0] as int - b[0] as int
    else CompareTo(a[1..], b[1..])
  }

  /** String.compareToIgnoreCase over ASCII: compareTo of the lower-cased strings. */
  function CompareToIgnoreCase(a: string, b: string): int {
    CompareTo(LowerString(a), LowerString(b))
  }

  /** compareTo is zero exactly on equal strings. */
  lemma {:induction false} CompareToZero(a: string, b: string)
    ensures CompareTo(a, b) == 0 <==> a == b
  {
    if a != [] && b != [] && a[0] == b[0] {
      CompareToZero(a[1..], b[1..]);
      assert a == [a[0]] + a[1..] && b == [b[0]] + b[1..];
    }
  }

  /** Swapping the arguments of compareTo negates the result. */
  lemma {:induction false} CompareToSwap(a: string, b: string)
    ensures CompareTo(a, b) == -CompareTo(b, a)
  {
    if a != [] && b != [] && a[0] == b[0] {
      CompareToSwap(a[1..], b[1..]);
    }
  }

  /** "compareTo < 0" is transitive. */
  lemma {:induction false} CompareToTransitive(a: string, b: string, c: string)
    requires CompareTo(a, b) < 0 && CompareTo(b, c) < 0
    ensures CompareTo(a, c) < 0
  {
    if a != [] && b != [] && c != [] && a[0] == b[0] && b[0] == c[0] {
      CompareToTransitive(a[1..], b[1..], c[1..]);
    }
  }

  /** compareToIgnoreCase is zero exactly when the strings agree up to ASCII case. */
  lemma CompareToIgnoreCaseZero(a: string, b: string)
    ensures CompareToIgnoreCase(a, b) == 0 <==> LowerString(a) == LowerString(b)
  {
    CompareToZero(LowerString(a), LowerString(b));
  }

  /** A decimal digit character. */
  predicate IsDigit(c: char) {
    '0' <= c <= '9'
  }

  /** Integer.toString for a natural number: its decimal digits, without leading zeros. */
  function NatToString(n: nat): (r: string)
    ensures |r| > 0
    ensures forall i :: 0 <= i < |r| ==> IsDigit(r[i])
    ensures n > 0 ==> r[0] != '0'
    decreases n
  {
    if n < 10 then [('0' as int + n) as char]
    else NatToString(n / 10) + [('0' as int + n % 10) as char]
  }

  /** The value of a string of decimal digits. */
  function DigitsValue(s: string): nat
    requires forall i :: 0 <= i < |s| ==> IsDigit(s[i])
  {
    if s == [] then 0
    else
      assert IsDigit(s[|s| - 1]);
      DigitsValue(s[..|s| - 1]) * 10 + (s[|s| - 1] as int - '0' as int)
  }

  /** Reading back the decimal digits of n gives n. */
  lemma {:induction false} NatToStringValue(n: nat)
    ensures DigitsValue(NatToString(n)) == n
    decreases n
  {
    if n >= 10 {
      NatToStringValue(n / 10);
      var s := NatToString(n);
      assert s[..|s| - 1] == NatToString(n / 10);
    }
  }

  /** Distinct numbers have distinct decimal strings. */
  lemma NatToStringInjective(m: nat, n: nat)
    requires NatToString(m) == NatToString(n)
    ensures m == n
  {
    NatToStringValue(m);
    NatToStringValue(n);
  }

  /** The parts separated by sep, as StringBuilder appends produce them. */
  function Join(parts: seq<string>, sep: string): (r: string)
    ensures parts == [] ==> r == []
    ensures |parts| == 1 ==> r == parts[0]
  {
    if parts == [] then []
    else if |parts| == 1 then parts[0]
    else parts[0] + sep + Join(parts[1..], sep)
  }

  /** Integer.compare (and Integer.compareTo): -1, 0 or 1 by the order of x and y. */
  function IntegerCompare(x: int, y: int): (r: int)
    ensures r < 0 <==> x < y
    ensures r == 0 <==> x == y
    ensures r > 0 <==> x > y
  {
    if x < y then -1 else if x == y then 0 else 1
  }

  /** Java's int division, which truncates toward zero. */
  function JavaDiv(a: int, b: int): (q: int)
    requires b != 0
    ensures 0 <= a && 0 < b ==> q == a / b
    ensures a < 0 && 0 < b ==> q == -((-a) / b)
  {
    var n := if a < 0 then -a else a;
    var d := if b < 0 then -b else b;
    if (a < 0) != (b < 0) then -(n / d) else n / d
  }

  /** For 0 <= a <= d * k, the quotient a / d lies in [0, k], and is k when a = d * k. */
  lemma DivBounds(a: int, d: int, k: nat)
    requires 0 < d && 0 <= a <= d * k
    ensures 0 <= a / d <= k
    ensures a == d * k ==> a / d == k
  {
    DivLower(a, d);
    DivUpper(a, d, k);
    if a == d * k {
      DivExact(d, k);
    }
  }

  /** A non-negative number has a non-negative quotient. */
  lemma DivLower(a: int, d: int)
    requires 0 < d && 0 <= a
    ensures 0 <= a / d
  {
    var q := a / d;
    assert a == d * q + a % d && a % d < d;
    assert d * (q + 1) == d * q + d;
    if q < 0 {
      MulMonotone(d, q + 1, 0);
    }
  }

  /** a <= d * k bounds the quotient a / d by k. */
  lemma DivUpper(a: int, d: int, k: int)
    requires 0 < d && a <= d * k
    ensures a / d <= k
  {
    var q := a / d;
    assert a == d * q + a % d && 0 <= a % d;
    assert d * (k + 1) == d * k + d;
    if q > k {
      MulMonotone(d, k + 1, q);
    }
  }

  /** (d * k) / d = k. */
  lemma DivExact(d: int, k: int)
    requires 0 < d
    ensures (d * k) / d == k
  {
    var a := d * k;
    var q, r := a / d, a % d;
    assert a == d * q + r && 0 <= r < d;
    assert d * (k - q) == r by { assert d * k - d * q == d * (k - q); }
    if k - q >= 1 {
      MulMonotone(d, 1, k - q);
    } else if k - q <= -1 {
      MulMonotone(d, k - q, -1);
    }
  }

  /** Division by a positive d is monotone on non-negative numbers. */
  lemma DivMonotone(a: int, b: int, d: int)
    requires 0 <= a <= b && 0 < d
    ensures a / d <= b / d
  {
    var p, q := a / d, b / d;
    assert a == d * p + a % d && b == d * q + b % d;
    assert d * (q + 1) == d * q + d;
    if p > q {
      MulMonotone(d, q + 1, p);
    }
  }

  /** Multiplying by a positive d is monotone. */
  lemma MulMonotone(d: int, x: int, y: int)
    requires 0 < d && x <= y
    ensures d * x <= d * y
  {
    assert d * y - d * x == d * (y - x);
  }

}
