/** Base-10 text of integers and the two string splits the source builds its tokens from. */
module Decimal {
  import opened Basics

  function Digit(d: int): char
    requires 0 <= d < 10
  {
    '0' + d as char
  }

  function Digits(n: nat): string {
    if n < 10 then [Digit(n)] else Digits(n / 10) + [Digit(n % 10)]
  }

  /** strconv.FormatInt(n, 10) */
  function FormatInt(n: int): string {
    if n < 0 then "-" + Digits(-n) else Digits(n)
  }

  predicate IsDigit(c: char) {
    '0' <= c <= '9'
  }

  predicate AllDigits(s: string) {
    forall c :: c in s ==> IsDigit(c)
  }

  function DigitsValue(s: string): int
    requires AllDigits(s)
  {
    if s == "" then 0
    else 10 * DigitsValue(s[..|s| - 1]) + (s[|s| - 1] as int - '0' as int)
  }

  /** strconv.ParseInt(s, 10, 64): an optional sign, at least one digit, a value in range. */
  function ParseInt(s: string): Option<int> {
    if s == "" then None
    else
      var body := if s[0] == '-' || s[0] == '+' then s[1..] else s;
      if body == "" || !AllDigits(body) then None
      else
        var v := if s[0] == '-' then -DigitsValue(body) else DigitsValue(body);
        if IsInt64(v) then Some(v) else None
  }

  lemma {:induction false} DigitsRoundTrip(n: nat)
    ensures Digits(n) != "" && AllDigits(Digits(n)) && DigitsValue(Digits(n)) == n
  {
    if n < 10 {
      assert Digits(n)[..0] == "";
    } else {
      DigitsRoundTrip(n / 10);
      assert Digits(n)[..|Digits(n)| - 1] == Digits(n / 10);
    }
  }

  lemma FormatIntChars(n: int)
    ensures FormatInt(n) != ""
    ensures forall c :: c in FormatInt(n) ==> c == '-' || IsDigit(c)
    ensures IsDigit(FormatInt(n)[0]) <==> n >= 0
  {
    DigitsRoundTrip(if n < 0 then -n else n);
    assert Digits(if n < 0 then -n else n)[0] in Digits(if n < 0 then -n else n);
  }

  lemma FormatParseRoundTrip(n: int)
    requires IsInt64(n)
    ensures ParseInt(FormatInt(n)) == Some(n)
  {
    FormatIntChars(n);
    DigitsRoundTrip(if n < 0 then -n else n);
    if n < 0 {
      assert FormatInt(n)[1..] == Digits(-n);
    }
  }

  /** strings.Cut(s, c): the parts before and after the first c. */
  function Cut(s: string, c: char): Option<(string, string)> {
    if s == "" then None
    else if s[0] == c then Some(("", s[1..]))
    else match Cut(s[1..], c)
      case None => None
      case Some(parts) => Some(([s[0]] + parts.0, parts.1))
  }

  lemma {:induction false} CutAtFirst(a: string, c: char, b: string)
    requires c !in a
    ensures Cut(a + [c] + b, c) == Some((a, b))
  {
    if a == "" {
      assert (a + [c] + b)[1..] == b;
    } else {
      CutAtFirst(a[1..], c, b);
      assert (a + [c] + b)[1..] == a[1..] + [c] + b;
      assert [a[0]] + a[1..] == a;
    }
  }

  /** A number, a separator that no number contains, and any text determine both parts. */
  lemma NumberedTextInjective(m: int, n: int, c: char, x: string, y: string)
    requires c != '-' && !IsDigit(c)
    requires FormatInt(m) + [c] + x == FormatInt(n) + [c] + y
    ensures m == n && x == y
  {
    FormatIntChars(m);
    FormatIntChars(n);
    CutAtFirst(FormatInt(m), c, x);
    CutAtFirst(FormatInt(n), c, y);
    DigitsRoundTrip(if m < 0 then -m else m);
    DigitsRoundTrip(if n < 0 then -n else n);
    if m < 0 && n < 0 {
      assert FormatInt(m)[1..] == Digits(-m) && FormatInt(n)[1..] == Digits(-n);
    }
  }

  lemma {:induction false} CutIsExact(s: string, c: char)
    ensures Cut(s, c).Some? <==> c in s
    ensures Cut(s, c).Some? ==> s == Cut(s, c).value.0 + [c] + Cut(s, c).value.1 && c !in Cut(s, c).value.0
  {
    if s != "" {
      CutIsExact(s[1..], c);
      assert s == [s[0]] + s[1..];
    }
  }

  // ----- which texts are numbers -----

  /** body is the digits of s, with or without a sign before them, and n is what s says. */
  predicate IsNumeral(s: string, body: string, n: int) {
    && body != "" && AllDigits(body)
    && (((s == body || s == "+" + body) && n == DigitsValue(body)) || (s == "-" + body && n == -DigitsValue(body)))
  }

  lemma ParseIntExact(s: string, n: int)
    ensures ParseInt(s) == Some(n) <==> IsInt64(n) && exists body :: IsNumeral(s, body, n)
  {
    if ParseInt(s) == Some(n) {
      var body := if s[0] == '-' || s[0] == '+' then s[1..] else s;
      assert s[0] == '-' ==> s == "-" + body;
      assert s[0] == '+' ==> s == "+" + body;
      assert IsNumeral(s, body, n);
    }
    if IsInt64(n) && exists body :: IsNumeral(s, body, n) {
      var body :| IsNumeral(s, body, n);
      assert IsDigit(body[0]);
      if s != body {
        assert s[1..] == body;
      }
    }
  }

  /** Zeros in front say nothing. */
  lemma {:induction false} LeadingZero(s: string)
    requires AllDigits(s)
    ensures AllDigits("0" + s) && DigitsValue("0" + s) == DigitsValue(s)
  {
    if s != "" {
      var n := |s| - 1;
      LeadingZero(s[..n]);
      assert ("0" + s)[..|s|] == "0" + s[..n];
    } else {
      assert ("0" + s)[..0] == "";
    }
  }
}
