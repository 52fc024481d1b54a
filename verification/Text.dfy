/** Strings as the program formats and splits them: decimal numbers, and names
    glued together with a separator character. */
module Text {

  /** strconv.Itoa on a non-negative number. */
  function Decimal(n: nat): string {
    if n < 10 then [DigitChar(n)] else Decimal(n / 10) + [DigitChar(n % 10)]
  }

  function DigitChar(d: nat): char
    requires d < 10
  {
    '0' + d as char
  }

  /** The `%v` rendering of a machine integer. */
  function FormatInt(z: int): string {
    if z < 0 then "-" + Decimal(-z) else Decimal(z)
  }

  lemma {:induction false} DecimalChars(n: nat)
    ensures |Decimal(n)| > 0
    ensures forall c | c in Decimal(n) :: '0' <= c <= '9'
  {
    if n >= 10 {
      DecimalChars(n / 10);
    }
  }

  /** The number a string of decimal digits stands for. */
  function Value(s: string): int {
    if s == [] then 0 else 10 * Value(s[..|s| - 1]) + (s[|s| - 1] as int - '0' as int)
  }

  /** Printing a number in decimal and reading it gives it back, and no zero leads it. */
  lemma {:induction false} DecimalReads(n: nat)
    ensures Value(Decimal(n)) == n && forall c | c in Decimal(n) :: '0' <= c <= '9'
    ensures |Decimal(n)| > 0 && (n > 0 ==> Decimal(n)[0] != '0')
  {
    DecimalChars(n);
    if n >= 10 {
      DecimalReads(n / 10);
      assert Decimal(n)[..|Decimal(n)| - 1] == Decimal(n / 10);
    } else {
      assert Decimal(n)[..0] == [];
    }
  }

  lemma FormatIntChars(z: int)
    ensures |FormatInt(z)| > 0
    ensures forall c | c in FormatInt(z) :: c == '-' || '0' <= c <= '9'
    ensures FormatInt(z)[0] == '-' <==> z < 0
  {
    var n := if z < 0 then -z else z;
    DecimalChars(n);
    assert Decimal(n)[0] in Decimal(n);
  }

  lemma {:induction false} DecimalInjective(m: nat, n: nat)
    requires Decimal(m) == Decimal(n)
    ensures m == n
  {
    var s, t := Decimal(m), Decimal(n);
    DecimalChars(m / 10);
    DecimalChars(n / 10);
    assert s[|s| - 1] == DigitChar(m % 10) && t[|t| - 1] == DigitChar(n % 10);
    if m >= 10 && n >= 10 {
      assert s[..|s| - 1] == Decimal(m / 10) && t[..|t| - 1] == Decimal(n / 10);
      DecimalInjective(m / 10, n / 10);
    }
  }

  /** Two different numbers never print alike. */
  lemma FormatIntInjective(m: int, n: int)
    requires FormatInt(m) == FormatInt(n)
    ensures m == n
  {
    FormatIntChars(m);
    FormatIntChars(n);
    if m < 0 {
      assert FormatInt(m)[1..] == Decimal(-m) && FormatInt(n)[1..] == Decimal(-n);
      DecimalInjective(-m, -n);
    } else {
      DecimalInjective(m, n);
    }
  }

  /** A name ends in the part after its last separator. */
  lemma SplitAtLast(a: string, s: string, b: string, t: string, sep: char)
    requires sep !in s && sep !in t
    requires a + [sep] + s == b + [sep] + t
    ensures a == b && s == t
  {
    var w, x := a + [sep] + s, b + [sep] + t;
    assert w[|a|] == sep && x[|b|] == sep;
    assert forall k | |a| < k < |w| :: w[k] == s[k - |a| - 1];
    assert forall k | |b| < k < |x| :: x[k] == t[k - |b| - 1];
    assert |a| == |b|;
    assert a == w[..|a|] && b == x[..|b|];
    assert s == w[|a| + 1..] && t == x[|b| + 1..];
  }

  /** A name starts with the part before its first separator. */
  lemma SplitAtFirst(s: string, a: string, t: string, b: string, sep: char)
    requires sep !in s && sep !in t
    requires s + [sep] + a == t + [sep] + b
    ensures s == t && a == b
  {
    var w, x := s + [sep] + a, t + [sep] + b;
    assert w[|s|] == sep && x[|t|] == sep;
    assert forall k | 0 <= k < |s| :: w[k] == s[k];
    assert forall k | 0 <= k < |t| :: x[k] == t[k];
    assert |s| == |t|;
    assert s == w[..|s|] && t == x[..|t|];
    assert a == w[|s| + 1..] && b == x[|t| + 1..];
  }

  /** ASCII case folding. */
  function Lower(s: string): string {
    if s == [] then [] else [LowerChar(s[0])] + Lower(s[1..])
  }

  function LowerChar(c: char): char {
    if 'A' <= c <= 'Z' then c + 32 as char else c
  }

  /** The same text up to the case of its ASCII letters. */
  predicate EqualFold(s: string, t: string) {
    |s| == |t| && forall i | 0 <= i < |s| ::
      || s[i] == t[i]
      || ('A' <= s[i] <= 'Z' && t[i] as int == s[i] as int + 32)
      || ('A' <= t[i] <= 'Z' && s[i] as int == t[i] as int + 32)
  }

  lemma {:induction false} LowerEqualIff(s: string, t: string)
    ensures Lower(s) == Lower(t) <==> EqualFold(s, t)
  {
    if s != [] && t != [] {
      LowerEqualIff(s[1..], t[1..]);
      assert Lower(s)[0] == LowerChar(s[0]) && Lower(s)[1..] == Lower(s[1..]);
      assert Lower(t)[0] == LowerChar(t[0]) && Lower(t)[1..] == Lower(t[1..]);
      assert Lower(s) == Lower(t) <==> LowerChar(s[0]) == LowerChar(t[0]) && Lower(s[1..]) == Lower(t[1..]);
      assert EqualFold(s, t) ==> EqualFold(s[1..], t[1..]);
    }
  }

  lemma {:induction false} LowerOfLower(s: string)
    requires forall c | c in s :: !('A' <= c <= 'Z')
    ensures Lower(s) == s
  {
    if s != [] {
      assert s[0] in s && forall c | c in s[1..] :: c in s;
      LowerOfLower(s[1..]);
    }
  }
}
