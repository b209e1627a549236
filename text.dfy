/** The string operations the client relies on: Python's `str(int)`, `str.rstrip("/")`,
    `str.lstrip("/")` and `str.lower()` (the last on ASCII letters only). */
module Text {

  predicate IsDigit(c: char) {
    '0' <= c <= '9'
  }

  function DigitChar(d: nat): (c: char)
    requires d < 10
    ensures IsDigit(c) && c as int - '0' as int == d
  {
    ('0' as int + d) as char
  }

  /** The decimal digits of `n`, most significant first, without leading zeros. */
  function Digits(n: nat): (s: string)
    ensures |s| > 0
    ensures forall i :: 0 <= i < |s| ==> IsDigit(s[i])
    ensures s[0] == '0' <==> n == 0
  {
    if n < 10 then [DigitChar(n)] else Digits(n / 10) + [DigitChar(n % 10)]
  }

  /** Python's `str(n)` for an integer `n`. */
  function Decimal(n: int): (s: string)
    ensures |s| > 0
  {
    if n < 0 then "-" + Digits(-n) else Digits(n)
  }

  /** The value of a nonempty string of decimal digits (an independent reading of `Digits`). */
  function DigitsValue(s: string): nat
    requires forall i :: 0 <= i < |s| ==> IsDigit(s[i])
  {
    if s == [] then 0
    else
      assert IsDigit(s[|s| - 1]);
      DigitsValue(s[..|s| - 1]) * 10 + (s[|s| - 1] as int - '0' as int)
  }

  /** Python's `int(s)` restricted to the texts `Decimal` produces. */
  function DecimalValue(s: string): int
    requires |s| > 0
    requires forall i :: 0 < i < |s| ==> IsDigit(s[i])
    requires s[0] == '-' || IsDigit(s[0])
  {
    if s[0] == '-' then -(DigitsValue(s[1..]) as int) else DigitsValue(s)
  }

  lemma {:induction false} DigitsRoundTrip(n: nat)
    ensures DigitsValue(Digits(n)) == n
  {
    if n >= 10 {
      var s := Digits(n);
      assert s[..|s| - 1] == Digits(n / 10);
      DigitsRoundTrip(n / 10);
    }
  }

  /** Rendering an integer in decimal loses nothing: reading the text back gives the integer. */
  lemma DecimalRoundTrip(n: int)
    ensures DecimalValue(Decimal(n)) == n
  {
    if n < 0 {
      assert Decimal(n)[1..] == Digits(-n);
      DigitsRoundTrip(-n);
    } else {
      DigitsRoundTrip(n);
    }
  }

  /** Python's `s.lstrip(c)`: `s` without its leading run of `c`. */
  function TrimLeft(s: string, c: char): (r: string)
    ensures |r| <= |s| && r == s[|s| - |r|..]
    ensures r == [] || r[0] != c
    ensures forall i :: 0 <= i < |s| - |r| ==> s[i] == c
  {
    if |s| > 0 && s[0] == c then TrimLeft(s[1..], c) else s
  }

  /** Python's `s.rstrip(c)`: `s` without its trailing run of `c`. */
  function TrimRight(s: string, c: char): (r: string)
    ensures |r| <= |s| && r == s[..|r|]
    ensures r == [] || r[|r| - 1] != c
    ensures forall i :: |r| <= i < |s| ==> s[i] == c
  {
    if |s| > 0 && s[|s| - 1] == c then TrimRight(s[..|s| - 1], c) else s
  }

  lemma TrimLeftIdempotent(s: string, c: char)
    ensures TrimLeft(TrimLeft(s, c), c) == TrimLeft(s, c)
  {
  }

  /** Extra copies of `c` in front do not change the result. */
  lemma {:induction false} TrimLeftPrefix(s: string, c: char, k: nat)
    ensures TrimLeft(seq(k, _ => c) + s, c) == TrimLeft(s, c)
  {
    if k > 0 {
      var u := seq(k, _ => c) + s;
      assert u[0] == c;
      assert u[1..] == seq(k - 1, _ => c) + s;
      assert TrimLeft(u, c) == TrimLeft(u[1..], c);
      TrimLeftPrefix(s, c, k - 1);
    } else {
      assert seq(k, _ => c) + s == s;
    }
  }

  /** Extra copies of `c` at the end do not change the result. */
  lemma {:induction false} TrimRightSuffix(s: string, c: char, k: nat)
    ensures TrimRight(s + seq(k, _ => c), c) == TrimRight(s, c)
  {
    if k > 0 {
      var t := s + seq(k, _ => c);
      assert t[..|t| - 1] == s + seq(k - 1, _ => c);
      TrimRightSuffix(s, c, k - 1);
    } else {
      assert s + seq(k, _ => c) == s;
    }
  }

  function LowerChar(c: char): char {
    if 'A' <= c <= 'Z' then (c as int - 'A' as int + 'a' as int) as char else c
  }

  /** Python's `s.lower()` on ASCII text. */
  function Lower(s: string): (r: string)
    ensures |r| == |s|
    ensures forall i :: 0 <= i < |s| ==> r[i] == LowerChar(s[i])
  {
    seq(|s|, i requires 0 <= i < |s| => LowerChar(s[i]))
  }
}
