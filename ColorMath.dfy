/**
 * The `hexToHSL` helper of the theme context: parse `#RRGGBB` into three
 * 0..255 channels and apply the RGB to HSL formulas, rounding each component
 * the way JavaScript's `Math.round` does. Arithmetic is over exact reals.
 */
module ColorMath {
  import opened Wrappers

  /** A colour channel as parsed from two hex digits. */
  type Channel = x: nat | x <= 255

  datatype Rgb = Rgb(r: Channel, g: Channel, b: Channel)

  /** Integer degrees and percentages, as returned by `hexToHSL`. */
  datatype Hsl = Hsl(h: int, s: int, l: int)

  // ---------------------------------------------------------------------
  // Parsing
  // ---------------------------------------------------------------------

  predicate IsHexDigit(c: char) {
    ('0' <= c <= '9') || ('a' <= c <= 'f') || ('A' <= c <= 'F')
  }

  function HexValue(c: char): (v: nat)
    requires IsHexDigit(c)
    ensures v < 16
  {
    if '0' <= c <= '9' then (c - '0') as nat
    else if 'a' <= c <= 'f' then (c - 'a') as nat + 10
    else (c - 'A') as nat + 10
  }

  /** `hex.replace(/^#/, '')`: removes at most one leading `#`. */
  function StripHash(hex: string): (t: string)
    ensures |hex| > 0 && hex[0] == '#' ==> hex == "#" + t
    ensures (|hex| == 0 || hex[0] != '#') ==> t == hex
  {
    if |hex| > 0 && hex[0] == '#' then hex[1..] else hex
  }

  /** The first six characters of `t` exist and are all hex digits. */
  predicate SixHexDigits(t: string) {
    && |t| >= 6
    && IsHexDigit(t[0]) && IsHexDigit(t[1]) && IsHexDigit(t[2])
    && IsHexDigit(t[3]) && IsHexDigit(t[4]) && IsHexDigit(t[5])
  }

  /** `parseInt(t.slice(i, i + 2), 16)` for two hex digits. */
  function PairValue(t: string, i: nat): Channel
    requires i + 2 <= |t| && IsHexDigit(t[i]) && IsHexDigit(t[i + 1])
  {
    16 * HexValue(t[i]) + HexValue(t[i + 1])
  }

  /** The three channels of a hex colour, or None when the six characters
      after the optional `#` are not all hex digits. */
  function ParseRgb(hex: string): (c: Option<Rgb>)
    ensures c.Some? <==> SixHexDigits(StripHash(hex))
  {
    var t := StripHash(hex);
    if SixHexDigits(t) then
      Some(Rgb(PairValue(t, 0), PairValue(t, 2), PairValue(t, 4)))
    else
      None
  }

  /** The upper-case hex digit of a value below 16. */
  function HexDigitChar(d: nat): (c: char)
    requires d < 16
    ensures IsHexDigit(c) && HexValue(c) == d
  {
    if d < 10 then ('0' as int + d) as char else ('A' as int + d - 10) as char
  }

  /** A channel written as two hex digits. */
  function HexPair(n: Channel): (t: string)
    ensures |t| == 2 && IsHexDigit(t[0]) && IsHexDigit(t[1])
    ensures 16 * HexValue(t[0]) + HexValue(t[1]) == n
  {
    [HexDigitChar(n / 16), HexDigitChar(n % 16)]
  }

  /** Every colour written as `#RRGGBB` is read back as the same channels. */
  lemma ParseRgbRoundTrip(c: Rgb)
    ensures ParseRgb("#" + HexPair(c.r) + HexPair(c.g) + HexPair(c.b)) == Some(c)
  {
    var pr, pg, pb := HexPair(c.r), HexPair(c.g), HexPair(c.b);
    var t := pr + pg + pb;
    assert StripHash("#" + t) == t;
    assert t[0] == pr[0] && t[1] == pr[1];
    assert t[2] == pg[0] && t[3] == pg[1];
    assert t[4] == pb[0] && t[5] == pb[1];
  }

  // ---------------------------------------------------------------------
  // Arithmetic
  // ---------------------------------------------------------------------

  /** JavaScript's `Math.round`: the nearest integer, halves rounded up. */
  function Round(x: real): (n: int)
    ensures x - 0.5 < n as real <= x + 0.5
  {
    (x + 0.5).Floor
  }

  function Max3(a: real, b: real, c: real): (m: real)
    ensures m >= a && m >= b && m >= c
    ensures m == a || m == b || m == c
  {
    if a >= b && a >= c then a else if b >= c then b else c
  }

  function Min3(a: real, b: real, c: real): (m: real)
    ensures m <= a && m <= b && m <= c
    ensures m == a || m == b || m == c
  {
    if a <= b && a <= c then a else if b <= c then b else c
  }

  /** A channel scaled to 0..1, as `parseInt(..) / 255`. */
  function Unit(x: Channel): (u: real)
    ensures 0.0 <= u <= 1.0
  {
    x as real / 255.0
  }

  function MaxOf(c: Rgb): real { Max3(Unit(c.r), Unit(c.g), Unit(c.b)) }
  function MinOf(c: Rgb): real { Min3(Unit(c.r), Unit(c.g), Unit(c.b)) }

  /** Lightness as a fraction: the mean of the largest and smallest channel. */
  function Lightness(c: Rgb): real {
    (MaxOf(c) + MinOf(c)) / 2.0
  }

  /** Saturation as a fraction; 0 for a grey, otherwise the piecewise formula
      chosen by whether the lightness exceeds one half. */
  function Saturation(c: Rgb): real {
    var mx, mn := MaxOf(c), MinOf(c);
    if mx == mn then 0.0
    else if Lightness(c) > 0.5 then (mx - mn) / (2.0 - mx - mn)
    else (mx - mn) / (mx + mn)
  }

  /** Hue as a fraction of a full turn (the source's `h` after `h /= 6`);
      the `switch (max)` tries red, then green, then blue. */
  function HueTurns(c: Rgb): real {
    var r, g, b := Unit(c.r), Unit(c.g), Unit(c.b);
    var mx, mn := MaxOf(c), MinOf(c);
    if mx == mn then 0.0
    else
      var h :=
        if mx == r then (g - b) / (mx - mn) + (if g < b then 6.0 else 0.0)
        else if mx == g then (b - r) / (mx - mn) + 2.0
        else if mx == b then (r - g) / (mx - mn) + 4.0
        else 0.0;  // the switch's default: max is always one of the three
      h / 6.0
  }

  function HslOfRgb(c: Rgb): Hsl {
    Hsl(Round(HueTurns(c) * 360.0), Round(Saturation(c) * 100.0), Round(Lightness(c) * 100.0))
  }

  /** `hexToHSL`, with an explicit failure for text it cannot parse. */
  function HexToHsl(hex: string): (res: Option<Hsl>)
    ensures res.Some? <==> SixHexDigits(StripHash(hex))
  {
    match ParseRgb(hex)
    case None => None
    case Some(c) => Some(HslOfRgb(c))
  }

  // ---------------------------------------------------------------------
  // Properties of the conversion
  // ---------------------------------------------------------------------

  /** Only one `#` is stripped: prefixing a `#` to text that does not start
      with one changes nothing, while a second `#` makes the text unparsable. */
  lemma LeadingHashIgnored(x: string)
    requires |x| == 0 || x[0] != '#'
    ensures HexToHsl("#" + x) == HexToHsl(x)
    ensures HexToHsl("##" + x) == None
  {
    assert StripHash("#" + x) == x;
    assert StripHash("##" + x) == "#" + x;
    assert !IsHexDigit(("#" + x)[0]);
  }

  /** Only the first six characters after the stripped `#` affect the result. */
  lemma OnlyFirstSixDigitsMatter(a: string, b: string)
    requires |StripHash(a)| >= 6 && |StripHash(b)| >= 6
    requires StripHash(a)[..6] == StripHash(b)[..6]
    ensures HexToHsl(a) == HexToHsl(b)
  {
    var ta, tb := StripHash(a), StripHash(b);
    forall i | 0 <= i < 6 ensures ta[i] == tb[i] {
      assert ta[..6][i] == tb[..6][i];
    }
  }

  function LowerChar(c: char): (d: char)
    ensures 'A' <= c <= 'Z' ==> d as int == c as int + 32
    ensures !('A' <= c <= 'Z') ==> d == c
  {
    if 'A' <= c <= 'Z' then (c as int + 32) as char else c
  }

  /** ASCII lower-casing, character by character. */
  function ToLower(s: string): (t: string)
    ensures |t| == |s|
    ensures forall i :: 0 <= i < |s| ==> t[i] == LowerChar(s[i])
  {
    seq(|s|, i requires 0 <= i < |s| => LowerChar(s[i]))
  }

  lemma LowerCharHex(c: char)
    ensures IsHexDigit(LowerChar(c)) == IsHexDigit(c)
    ensures IsHexDigit(c) ==> HexValue(LowerChar(c)) == HexValue(c)
  {
  }

  lemma StripHashLower(hex: string)
    ensures StripHash(ToLower(hex)) == ToLower(StripHash(hex))
  {
    if |hex| > 0 {
      assert ToLower(hex)[0] == '#' <==> hex[0] == '#';
    }
  }

  lemma PairsLower(t: string)
    ensures SixHexDigits(ToLower(t)) == SixHexDigits(t)
    ensures SixHexDigits(t) ==>
      && PairValue(ToLower(t), 0) == PairValue(t, 0)
      && PairValue(ToLower(t), 2) == PairValue(t, 2)
      && PairValue(ToLower(t), 4) == PairValue(t, 4)
  {
    if |t| >= 6 {
      LowerCharHex(t[0]); LowerCharHex(t[1]); LowerCharHex(t[2]);
      LowerCharHex(t[3]); LowerCharHex(t[4]); LowerCharHex(t[5]);
    }
  }

  /** Hex digits are case-insensitive: `#1e88e5` reads as `#1E88E5`. */
  lemma CaseInsensitive(hex: string)
    ensures HexToHsl(ToLower(hex)) == HexToHsl(hex)
  {
    StripHashLower(hex);
    PairsLower(StripHash(hex));
    assert ParseRgb(ToLower(hex)) == ParseRgb(hex);
  }

  /** Dividing by a positive real keeps a quotient in [-1, 1], reaching the
      ends exactly when the dividend does. */
  lemma QuotientBounds(a: real, d: real)
    requires d > 0.0 && -d <= a <= d
    ensures -1.0 <= a / d <= 1.0
    ensures a < 0.0 ==> a / d < 0.0
    ensures a >= 0.0 ==> a / d >= 0.0
    ensures a < d ==> a / d < 1.0
    ensures -d < a ==> -1.0 < a / d
    ensures a == d ==> a / d == 1.0
    ensures a == -d ==> a / d == -1.0
  {
    var q := a / d;
    assert q * d == a;
    assert (1.0 - q) * d == d - a;
    assert (1.0 + q) * d == d + a;
  }

  lemma RoundBounds(x: real, lo: int, hi: int)
    requires lo as real <= x <= hi as real
    ensures lo <= Round(x) <= hi
  {
  }

  /** In the chromatic case none of the three divisors can be zero. */
  lemma ChromaticDivisorsPositive(c: Rgb)
    requires MaxOf(c) != MinOf(c)
    ensures MaxOf(c) - MinOf(c) > 0.0
    ensures MaxOf(c) + MinOf(c) > 0.0
    ensures 2.0 - MaxOf(c) - MinOf(c) > 0.0
  {
  }

  /** Saturation and lightness are fractions in [0, 1]. */
  lemma SaturationLightnessBounds(c: Rgb)
    ensures 0.0 <= Saturation(c) <= 1.0
    ensures 0.0 <= Lightness(c) <= 1.0
  {
    var mx, mn := MaxOf(c), MinOf(c);
    if mx != mn {
      ChromaticDivisorsPositive(c);
      if Lightness(c) > 0.5 {
        QuotientBounds(mx - mn, 2.0 - mx - mn);
      } else {
        QuotientBounds(mx - mn, mx + mn);
      }
    }
  }

  /** The hue is a fraction of a turn in [0, 1]. */
  lemma HueBounds(c: Rgb)
    ensures 0.0 <= HueTurns(c) <= 1.0
  {
    var r, g, b := Unit(c.r), Unit(c.g), Unit(c.b);
    var mx, mn := MaxOf(c), MinOf(c);
    if mx != mn {
      var d := mx - mn;
      if mx == r {
        QuotientBounds(g - b, d);
      } else if mx == g {
        QuotientBounds(b - r, d);
      } else {
        QuotientBounds(r - g, d);
      }
    }
  }

  /** Every parsed colour gives 0 <= h <= 360 and 0 <= s, l <= 100. The hue
      can reach 360 itself (see `RoundsUpToFullTurn`). */
  lemma HslRange(hex: string)
    requires SixHexDigits(StripHash(hex))
    ensures 0 <= HexToHsl(hex).value.h <= 360
    ensures 0 <= HexToHsl(hex).value.s <= 100
    ensures 0 <= HexToHsl(hex).value.l <= 100
  {
    var c := ParseRgb(hex).value;
    HueBounds(c);
    SaturationLightnessBounds(c);
    RoundBounds(HueTurns(c) * 360.0, 0, 360);
    RoundBounds(Saturation(c) * 100.0, 0, 100);
    RoundBounds(Lightness(c) * 100.0, 0, 100);
  }

  /** A grey (all channels equal) takes the achromatic branch: hue and
      saturation 0, lightness the rounded channel percentage. */
  lemma Achromatic(hex: string)
    requires SixHexDigits(StripHash(hex))
    requires ParseRgb(hex).value.r == ParseRgb(hex).value.g == ParseRgb(hex).value.b
    ensures HexToHsl(hex).value.h == 0 && HexToHsl(hex).value.s == 0
    ensures HexToHsl(hex).value.l == Round(ParseRgb(hex).value.r as real * 100.0 / 255.0)
  {
  }

  /** The hue lands in the sector of the dominant channel. Where two
      channels tie for the maximum, the red-then-green-then-blue order of the
      `switch` picks one formula, and it gives the sector boundary that the
      other formula would give as well. */
  lemma HueSector(c: Rgb)
    requires MaxOf(c) != MinOf(c)
    ensures c.r >= c.g >= c.b ==> 0.0 <= HueTurns(c) * 360.0 <= 60.0
    ensures c.r >= c.b > c.g ==> 300.0 <= HueTurns(c) * 360.0 < 360.0
    ensures c.g > c.r && c.g >= c.b ==> 60.0 < HueTurns(c) * 360.0 <= 180.0
    ensures c.b > c.r && c.b > c.g ==> 180.0 < HueTurns(c) * 360.0 < 300.0
    ensures c.r == c.g > c.b ==> HueTurns(c) * 360.0 == 60.0
    ensures c.g == c.b > c.r ==> HueTurns(c) * 360.0 == 180.0
    ensures c.r == c.b > c.g ==> HueTurns(c) * 360.0 == 300.0
  {
    var r, g, b := Unit(c.r), Unit(c.g), Unit(c.b);
    var mx, mn := MaxOf(c), MinOf(c);
    var d := mx - mn;
    if mx == r {
      QuotientBounds(g - b, d);
    } else if mx == g {
      QuotientBounds(b - r, d);
    } else {
      QuotientBounds(r - g, d);
    }
  }

  /** The store's default primary colour. */
  lemma DefaultPrimaryHsl()
    ensures HexToHsl("#1E88E5") == Some(Hsl(208, 79, 51))
  {
    var c := Rgb(30, 136, 229);
    assert ParseRgb("#1E88E5") == Some(c);
    assert MaxOf(c) == 229.0 / 255.0 && MinOf(c) == 30.0 / 255.0;
    assert HueTurns(c) * 360.0 == 60.0 * ((30.0 - 136.0) / 199.0 + 4.0);
    assert Saturation(c) == 199.0 / 251.0;
  }

  /** The store's default secondary colour. */
  lemma DefaultSecondaryHsl()
    ensures HexToHsl("#26C6DA") == Some(Hsl(187, 71, 50))
  {
    var c := Rgb(38, 198, 218);
    assert ParseRgb("#26C6DA") == Some(c);
    assert MaxOf(c) == 218.0 / 255.0 && MinOf(c) == 38.0 / 255.0;
    assert HueTurns(c) * 360.0 == 60.0 * ((38.0 - 198.0) / 180.0 + 4.0);
    assert Saturation(c) == 180.0 / 254.0;
  }

  /** A red with a trace of blue rounds its hue up to a full 360 degrees. */
  lemma RoundsUpToFullTurn()
    ensures HexToHsl("#FF0001") == Some(Hsl(360, 100, 50))
  {
    var c := Rgb(255, 0, 1);
    assert ParseRgb("#FF0001") == Some(c);
    assert MaxOf(c) == 1.0 && MinOf(c) == 0.0;
    assert HueTurns(c) * 360.0 == 60.0 * (-1.0 / 255.0 + 6.0);
  }

  /** Black and white are greys at the ends of the lightness scale. */
  lemma BlackAndWhite()
    ensures HexToHsl("#000000") == Some(Hsl(0, 0, 0))
    ensures HexToHsl("#FFFFFF") == Some(Hsl(0, 0, 100))
    ensures HexToHsl("#ffffff") == Some(Hsl(0, 0, 100))
  {
    assert ParseRgb("#000000") == Some(Rgb(0, 0, 0));
    assert ParseRgb("#FFFFFF") == Some(Rgb(255, 255, 255));
    assert ParseRgb("#ffffff") == Some(Rgb(255, 255, 255));
  }
}
