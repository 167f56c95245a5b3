/** Canonical decimal text of a natural number: the strings /^(?:0|[1-9][0-9]*)$/ accepts. */
module Decimal {

  predicate IsDigit(c: char) {
    '0' <= c <= '9'
  }

  function Digit(d: nat): char
    requires d < 10
  {
    '0' + d as char
  }

  function DigitValue(c: char): nat
    requires IsDigit(c)
  {
    (c - '0') as nat
  }

  predicate AllDigits(s: string) {
    forall i :: 0 <= i < |s| ==> IsDigit(s[i])
  }

  predicate IsCanonical(s: string) {
    s != "" && AllDigits(s) && (s[0] == '0' ==> |s| == 1)
  }

  function Render(n: nat): string {
    if n < 10 then [Digit(n)] else Render(n / 10) + [Digit(n % 10)]
  }

  function Parse(s: string): nat
    requires AllDigits(s)
  {
    if s == "" then 0 else 10 * Parse(s[..|s| - 1]) + DigitValue(s[|s| - 1])
  }

  lemma DigitRoundTrip(d: nat)
    requires d < 10
    ensures IsDigit(Digit(d)) && DigitValue(Digit(d)) == d
  {
  }

  lemma {:induction false} RenderIsCanonical(n: nat)
    ensures IsCanonical(Render(n))
    ensures n > 0 ==> Render(n)[0] != '0'
  {
    DigitRoundTrip(n % 10);
    if n >= 10 { RenderIsCanonical(n / 10); }
  }

  lemma {:induction false} ParseRender(n: nat)
    ensures AllDigits(Render(n)) && Parse(Render(n)) == n
  {
    RenderIsCanonical(n);
    DigitRoundTrip(n % 10);
    if n >= 10 {
      ParseRender(n / 10);
      assert Render(n)[..|Render(n)| - 1] == Render(n / 10);
    } else {
      assert Render(n)[..0] == "";
      assert n % 10 == n;
    }
  }

  lemma {:induction false} ParsePositive(s: string)
    requires IsCanonical(s) && s[0] != '0'
    ensures Parse(s) > 0
  {
    if |s| > 1 { ParsePositive(s[..|s| - 1]); }
  }

  lemma {:induction false} RenderParse(s: string)
    requires IsCanonical(s)
    ensures Render(Parse(s)) == s
  {
    var n := |s| - 1;
    var front, d := s[..n], DigitValue(s[n]);
    assert s == front + [s[n]];
    if n == 0 {
      assert front == "" && Parse(s) == d;
    } else {
      assert IsCanonical(front);
      ParsePositive(front);
      RenderParse(front);
      assert Parse(s) / 10 == Parse(front) && Parse(s) % 10 == d;
    }
    assert Digit(d) == s[n];
  }
}
