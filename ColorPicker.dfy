/**
 * The theme customizer panel: for each colour slot a native colour input and
 * a hex text field, plus a reset button. Each handler is a method on the
 * shared theme store; the popover's open/closed flag is not modelled.
 */
module ColorPicker {
  import opened Wrappers
  import opened ColorMath
  import opened ThemeContext

  /** JavaScript's `length`: UTF-16 code units, so a character outside the
      Basic Multilingual Plane counts twice. */
  function Utf16Length(v: string): (n: nat)
    ensures |v| <= n <= 2 * |v|
  {
    if |v| == 0 then 0
    else Utf16Length(v[..|v| - 1]) + (if v[|v| - 1] as int > 0xFFFF then 2 else 1)
  }

  lemma {:induction false} Utf16LengthAppend(u: string, w: string)
    ensures Utf16Length(u + w) == Utf16Length(u) + Utf16Length(w)
    decreases |w|
  {
    if |w| > 0 {
      var w' := w[..|w| - 1];
      assert (u + w)[..|u + w| - 1] == u + w';
      Utf16LengthAppend(u, w');
    } else {
      assert u + w == u;
    }
  }

  /** Text within the Basic Multilingual Plane has one code unit per character. */
  lemma {:induction false} Utf16LengthBmp(v: string)
    requires forall i :: 0 <= i < |v| ==> v[i] as int <= 0xFFFF
    ensures Utf16Length(v) == |v|
    decreases |v|
  {
    if |v| > 0 {
      Utf16LengthBmp(v[..|v| - 1]);
    }
  }

  /** Text made only of characters beyond it has two code units per character. */
  lemma {:induction false} Utf16LengthAstral(v: string)
    requires forall i :: 0 <= i < |v| ==> v[i] as int > 0xFFFF
    ensures Utf16Length(v) == 2 * |v|
    decreases |v|
  {
    if |v| > 0 {
      Utf16LengthAstral(v[..|v| - 1]);
    }
  }

  /** The text fields' guard: `value.startsWith('#') && value.length <= 7`.
      Whatever it accepts is a `#` followed by at most six characters. */
  predicate AcceptsText(v: string): (ok: bool)
    ensures ok ==> 1 <= |v| <= 7 && v[0] == '#'
  {
    |v| > 0 && v[0] == '#' && Utf16Length(v) <= 7
  }

  /** The guard lets through exactly the non-empty prefixes of a seven
      character `#`-colour. Among them `hexToHSL` can read precisely the
      complete ones: a `#` followed by six hex digits. */
  lemma AcceptedTextParsable(v: string)
    requires AcceptsText(v)
    ensures HexToHsl(v).Some? <==> |v| == 7 && forall i :: 1 <= i < 7 ==> IsHexDigit(v[i])
  {
    var t := StripHash(v);
    assert t == v[1..];
    if |v| == 7 {
      forall i | 1 <= i < 7 ensures IsHexDigit(v[i]) == IsHexDigit(t[i - 1]) { }
    }
  }

  /** Partial input such as `#1E` passes the guard although it is not a
      colour; text without the `#` or longer than seven characters does not. */
  lemma GuardExamples()
    ensures AcceptsText("#1E") && HexToHsl("#1E") == None
    ensures AcceptsText("#1E88E5") && HexToHsl("#1E88E5").Some?
    ensures !AcceptsText("1E88E5") && !AcceptsText("") && !AcceptsText("#1E88E5F")
    ensures !AcceptsText("#\U{1F600}\U{1F600}\U{1F600}\U{1F600}")
  {
    Utf16LengthBmp("#1E88E5");
    AcceptedTextParsable("#1E88E5");
    var faces := "\U{1F600}\U{1F600}\U{1F600}\U{1F600}";
    Utf16LengthAstral(faces);
    Utf16LengthAppend("#", faces);
    assert "#" + faces == "#\U{1F600}\U{1F600}\U{1F600}\U{1F600}";
  }

  /** `onChange` of the primary colour's native input: forwarded as is. */
  method OnPrimaryColorInput(theme: ThemeStore, value: string)
    modifies theme
    ensures theme.primaryColor == value && theme.secondaryColor == old(theme.secondaryColor)
    ensures theme.storage == old(theme.storage)[PRIMARY_KEY := value]
    ensures theme.Valid()
    ensures theme.style == old(theme.style)[PRIMARY_VAR := CssValue(value)][SECONDARY_VAR := CssValue(theme.secondaryColor)]
  {
    theme.SetPrimaryColor(value);
  }

  /** `onChange` of the secondary colour's native input: forwarded as is. */
  method OnSecondaryColorInput(theme: ThemeStore, value: string)
    modifies theme
    ensures theme.secondaryColor == value && theme.primaryColor == old(theme.primaryColor)
    ensures theme.storage == old(theme.storage)[SECONDARY_KEY := value]
    ensures theme.Valid()
    ensures theme.style == old(theme.style)[PRIMARY_VAR := CssValue(theme.primaryColor)][SECONDARY_VAR := CssValue(value)]
  {
    theme.SetSecondaryColor(value);
  }

  /** `onChange` of the primary colour's text field: an accepted value is
      stored verbatim in the primary slot only; a rejected one changes
      nothing at all. */
  method OnPrimaryText(theme: ThemeStore, value: string)
    modifies theme
    ensures AcceptsText(value) ==>
      && theme.primaryColor == value && theme.secondaryColor == old(theme.secondaryColor)
      && theme.storage == old(theme.storage)[PRIMARY_KEY := value]
      && theme.style == old(theme.style)[PRIMARY_VAR := CssValue(value)][SECONDARY_VAR := CssValue(theme.secondaryColor)]
    ensures !AcceptsText(value) ==> unchanged(theme)
    ensures theme.primaryColor != old(theme.primaryColor) ==>
      1 <= |theme.primaryColor| && Utf16Length(theme.primaryColor) <= 7 && theme.primaryColor[0] == '#'
    ensures AcceptsText(value) || old(theme.Valid()) ==> theme.Valid()
  {
    if AcceptsText(value) {
      theme.SetPrimaryColor(value);
    }
  }

  /** `onChange` of the secondary colour's text field: the same guard,
      forwarding only to the secondary slot. */
  method OnSecondaryText(theme: ThemeStore, value: string)
    modifies theme
    ensures AcceptsText(value) ==>
      && theme.secondaryColor == value && theme.primaryColor == old(theme.primaryColor)
      && theme.storage == old(theme.storage)[SECONDARY_KEY := value]
      && theme.style == old(theme.style)[PRIMARY_VAR := CssValue(theme.primaryColor)][SECONDARY_VAR := CssValue(value)]
    ensures !AcceptsText(value) ==> unchanged(theme)
    ensures theme.secondaryColor != old(theme.secondaryColor) ==>
      1 <= |theme.secondaryColor| && Utf16Length(theme.secondaryColor) <= 7 && theme.secondaryColor[0] == '#'
    ensures AcceptsText(value) || old(theme.Valid()) ==> theme.Valid()
  {
    if AcceptsText(value) {
      theme.SetSecondaryColor(value);
    }
  }

  /** The reset button's `onClick`: the store's reset and nothing else. */
  method OnReset(theme: ThemeStore)
    modifies theme
    ensures theme.primaryColor == DEFAULT_PRIMARY && theme.secondaryColor == DEFAULT_SECONDARY
    ensures theme.storage == old(theme.storage) - {PRIMARY_KEY, SECONDARY_KEY}
    ensures theme.style == old(theme.style)[PRIMARY_VAR := CssValue(theme.primaryColor)][SECONDARY_VAR := CssValue(theme.secondaryColor)]
    ensures theme.Valid()
  {
    theme.ResetColors();
  }

  /** Typing `#1E` stores the partial text verbatim and persists it; the
      primary style variable then holds no colour until the text is complete. */
  method TypePartialPrimary(stored: map<string, string>, style: map<string, string>)
    returns (primary: string, persisted: string, css: string)
    ensures primary == "#1E" && persisted == "#1E" && css == UNPARSABLE
  {
    var theme := new ThemeStore(stored, style);
    theme.MountEffect();
    OnPrimaryText(theme, "#1E");
    primary := theme.primaryColor;
    persisted := theme.storage[PRIMARY_KEY];
    css := theme.style[PRIMARY_VAR];
  }
}
