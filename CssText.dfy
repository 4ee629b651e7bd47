/**
 * The text that `updateCssVariables` writes into a style variable: the
 * template `${h} ${s}% ${l}%`, with JavaScript's decimal rendering of the
 * (non-negative, integral) components.
 */
module CssText {
  import opened ColorMath

  predicate IsDigit(c: char) {
    '0' <= c <= '9'
  }

  predicate AllDigits(t: string) {
    forall i :: 0 <= i < |t| ==> IsDigit(t[i])
  }

  function DigitChar(d: nat): (c: char)
    requires d < 10
    ensures IsDigit(c) && (c - '0') as nat == d
  {
    ('0' as int + d) as char
  }

  /** Decimal rendering of a natural number, without leading zeros. */
  function NatText(n: nat): (t: string)
    ensures |t| >= 1 && AllDigits(t)
    ensures |t| > 1 ==> t[0] != '0'
    decreases n
  {
    if n < 10 then [DigitChar(n)] else NatText(n / 10) + [DigitChar(n % 10)]
  }

  /** The value of a string of decimal digits. */
  function DigitsValue(t: string): nat
    requires AllDigits(t)
    decreases |t|
  {
    if |t| == 0 then 0
    else 10 * DigitsValue(t[..|t| - 1]) + (t[|t| - 1] - '0') as nat
  }

  /** Reading back the decimal text of `n` gives `n`. */
  lemma {:induction false} NatTextRoundTrip(n: nat)
    ensures DigitsValue(NatText(n)) == n
    decreases n
  {
    var t := NatText(n);
    if n >= 10 {
      NatTextRoundTrip(n / 10);
      assert t[..|t| - 1] == NatText(n / 10);
    }
  }

  /** `${h} ${s}% ${l}%` for a triple of non-negative integers. */
  function HslText(c: Hsl): string
    requires c.h >= 0 && c.s >= 0 && c.l >= 0
  {
    NatText(c.h) + " " + NatText(c.s) + "% " + NatText(c.l) + "%"
  }

  /** Position of the first `c` in `s`, or `|s|` when there is none. */
  function IndexOf(s: string, c: char): (k: nat)
    ensures k <= |s|
  {
    if |s| == 0 then 0 else if s[0] == c then 0 else 1 + IndexOf(s[1..], c)
  }

  lemma {:induction false} IndexOfSeparator(x: string, sep: char, u: string)
    requires forall i :: 0 <= i < |x| ==> x[i] != sep
    ensures IndexOf(x + [sep] + u, sep) == |x|
    decreases |x|
  {
    if |x| > 0 {
      assert (x + [sep] + u)[1..] == x[1..] + [sep] + u;
      IndexOfSeparator(x[1..], sep, u);
    }
  }

  /** A separator that occurs in neither prefix fixes where both texts split. */
  lemma SplitAtSeparator(x: string, y: string, sep: char, u: string, v: string)
    requires forall i :: 0 <= i < |x| ==> x[i] != sep
    requires forall i :: 0 <= i < |y| ==> y[i] != sep
    requires x + [sep] + u == y + [sep] + v
    ensures x == y && u == v
  {
    var s := x + [sep] + u;
    IndexOfSeparator(x, sep, u);
    IndexOfSeparator(y, sep, v);
    assert x == s[..|x|] == y;
    assert u == s[|x| + 1..] == v;
  }

  lemma DigitsHaveNoSeparator(t: string, sep: char)
    requires AllDigits(t) && !IsDigit(sep)
    ensures forall i :: 0 <= i < |t| ==> t[i] != sep
  {
  }

  /** The template's text starts with the hue's first digit and ends with
      the lightness's `%`. */
  lemma HslTextForm(c: Hsl)
    requires c.h >= 0 && c.s >= 0 && c.l >= 0
    ensures |HslText(c)| >= 7
    ensures IsDigit(HslText(c)[0]) && HslText(c)[|HslText(c)| - 1] == '%'
  {
  }

  /** The style text cut at its two separators. */
  lemma HslTextShape(c: Hsl)
    requires c.h >= 0 && c.s >= 0 && c.l >= 0
    ensures HslText(c) == NatText(c.h) + [' '] + (NatText(c.s) + ['%'] + ([' '] + NatText(c.l) + ['%']))
  {
  }

  lemma UnwrapLightness(x: string, y: string)
    requires [' '] + x + ['%'] == [' '] + y + ['%']
    ensures x == y
  {
    assert x == ([' '] + x + ['%'])[1..|x| + 1];
    assert y == ([' '] + y + ['%'])[1..|y| + 1];
  }

  /** Different triples give different style text, so the text written into
      a style variable determines the colour it was computed from. */
  lemma HslTextInjective(a: Hsl, b: Hsl)
    requires a.h >= 0 && a.s >= 0 && a.l >= 0
    requires b.h >= 0 && b.s >= 0 && b.l >= 0
    requires HslText(a) == HslText(b)
    ensures a == b
  {
    var ah, as_, al := NatText(a.h), NatText(a.s), NatText(a.l);
    var bh, bs, bl := NatText(b.h), NatText(b.s), NatText(b.l);
    HslTextShape(a);
    HslTextShape(b);
    DigitsHaveNoSeparator(ah, ' ');
    DigitsHaveNoSeparator(bh, ' ');
    SplitAtSeparator(ah, bh, ' ', as_ + ['%'] + ([' '] + al + ['%']), bs + ['%'] + ([' '] + bl + ['%']));
    DigitsHaveNoSeparator(as_, '%');
    DigitsHaveNoSeparator(bs, '%');
    SplitAtSeparator(as_, bs, '%', [' '] + al + ['%'], [' '] + bl + ['%']);
    UnwrapLightness(al, bl);
    NatTextRoundTrip(a.h); NatTextRoundTrip(b.h);
    NatTextRoundTrip(a.s); NatTextRoundTrip(b.s);
    NatTextRoundTrip(a.l); NatTextRoundTrip(b.l);
  }

  /** Two- and three-digit numbers are written digit by digit. */
  lemma TwoDigitText(n: nat)
    requires 10 <= n < 100
    ensures NatText(n) == [DigitChar(n / 10), DigitChar(n % 10)]
  {
  }

  lemma ThreeDigitText(n: nat)
    requires 100 <= n < 1000
    ensures NatText(n) == [DigitChar(n / 100), DigitChar(n / 10 % 10), DigitChar(n % 10)]
  {
    TwoDigitText(n / 10);
  }

  /** The text written for the default primary colour. */
  lemma DefaultPrimaryText()
    ensures HslText(Hsl(208, 79, 51)) == "208 79% 51%"
  {
    ThreeDigitText(208);
    TwoDigitText(79);
    TwoDigitText(51);
  }

  /** The text written for the default secondary colour. */
  lemma DefaultSecondaryText()
    ensures HslText(Hsl(187, 71, 50)) == "187 71% 50%"
  {
    ThreeDigitText(187);
    TwoDigitText(71);
    TwoDigitText(50);
  }
}
