/**
 * `ThemeProvider`: the two brand colours of the page, the browser storage
 * they persist to and the two style variables they are rendered into.
 * Storage and the document's style are modelled as string maps owned by the
 * store; React's state cells are the two colour fields.
 */
module ThemeContext {
  import opened Wrappers
  import opened ColorMath
  import opened CssText

  const DEFAULT_PRIMARY: string := "#1E88E5"
  const DEFAULT_SECONDARY: string := "#26C6DA"

  /** Storage keys. */
  const PRIMARY_KEY: string := "primaryColor"
  const SECONDARY_KEY: string := "secondaryColor"

  /** Style variables. */
  const PRIMARY_VAR: string := "--primary"
  const SECONDARY_VAR: string := "--secondary"

  /** What the model writes for a colour `hexToHSL` cannot parse; it is not
      a triple of decimal numbers, so it never coincides with one. */
  const UNPARSABLE: string := "unparsable"

  /** `storage.getItem(key) || fallback`: a missing or empty entry falls
      back to the default. */
  function StoredOr(storage: map<string, string>, key: string, fallback: string): (v: string)
    ensures key in storage && storage[key] != "" ==> v == storage[key]
    ensures key !in storage || storage[key] == "" ==> v == fallback
  {
    if key in storage && storage[key] != "" then storage[key] else fallback
  }

  /** The style text for a colour: its HSL triple as `h s% l%`. */
  function CssValue(hex: string): (t: string)
    ensures HexToHsl(hex).None? ==> t == UNPARSABLE
  {
    match HexToHsl(hex)
    case None => UNPARSABLE
    case Some(c) => HslRange(hex); HslText(c)
  }

  /** The style text of a parsable colour is the decimal triple of its HSL
      value, and two colours with the same style text have the same HSL value. */
  lemma CssValueDeterminesHsl(x: string, y: string)
    requires HexToHsl(x).Some? && HexToHsl(y).Some?
    requires CssValue(x) == CssValue(y)
    ensures HexToHsl(x) == HexToHsl(y)
    ensures CssValue(x) != UNPARSABLE
  {
    HslRange(x);
    HslRange(y);
    HslTextInjective(HexToHsl(x).value, HexToHsl(y).value);
    var t := CssValue(x);
    assert IsDigit(t[0]);
    assert !IsDigit(UNPARSABLE[0]);
  }

  /** The default colours render as `208 79% 51%` and `187 71% 50%`. */
  lemma DefaultCssValues()
    ensures CssValue(DEFAULT_PRIMARY) == "208 79% 51%"
    ensures CssValue(DEFAULT_SECONDARY) == "187 71% 50%"
  {
    DefaultPrimaryHsl();
    DefaultSecondaryHsl();
    DefaultPrimaryText();
    DefaultSecondaryText();
  }

  class ThemeStore {
    var primaryColor: string
    var secondaryColor: string
    /** Browser storage (`localStorage`). */
    var storage: map<string, string>
    /** The document element's style properties. */
    var style: map<string, string>

    /** Both style variables show the current colours. */
    ghost predicate Valid()
      reads this
    {
      && PRIMARY_VAR in style && style[PRIMARY_VAR] == CssValue(primaryColor)
      && SECONDARY_VAR in style && style[SECONDARY_VAR] == CssValue(secondaryColor)
    }

    /** The first render: each colour is read from storage, falling back to
        its default when the entry is missing or empty. The style is not yet
        written; that is the mount effect's job. */
    constructor (stored: map<string, string>, initialStyle: map<string, string>)
      ensures primaryColor == StoredOr(stored, PRIMARY_KEY, DEFAULT_PRIMARY)
      ensures secondaryColor == StoredOr(stored, SECONDARY_KEY, DEFAULT_SECONDARY)
      ensures storage == stored && style == initialStyle
    {
      primaryColor := StoredOr(stored, PRIMARY_KEY, DEFAULT_PRIMARY);
      secondaryColor := StoredOr(stored, SECONDARY_KEY, DEFAULT_SECONDARY);
      storage := stored;
      style := initialStyle;
    }

    /** The mount effect (it has no dependencies, so it runs once): renders
        both style variables from the colours read at the first render. */
    method MountEffect()
      modifies this`style
      ensures style == old(style)[PRIMARY_VAR := CssValue(primaryColor)][SECONDARY_VAR := CssValue(secondaryColor)]
      ensures Valid()
    {
      UpdateCssVariables(primaryColor, secondaryColor);
    }

    /** Writes both style variables from the given colours. */
    method UpdateCssVariables(primary: string, secondary: string)
      modifies this`style
      ensures style == old(style)[PRIMARY_VAR := CssValue(primary)][SECONDARY_VAR := CssValue(secondary)]
      ensures style[PRIMARY_VAR] == CssValue(primary) && style[SECONDARY_VAR] == CssValue(secondary)
    {
      style := style[PRIMARY_VAR := CssValue(primary)];
      style := style[SECONDARY_VAR := CssValue(secondary)];
    }

    /** Stores `color` verbatim as the primary colour, persists it and
        re-renders both style variables from the new primary and the current
        secondary colour; the secondary colour and its entry are untouched. */
    method SetPrimaryColor(color: string)
      modifies this
      ensures Valid()
      ensures primaryColor == color && secondaryColor == old(secondaryColor)
      ensures storage == old(storage)[PRIMARY_KEY := color]
      ensures style == old(style)[PRIMARY_VAR := CssValue(color)][SECONDARY_VAR := CssValue(secondaryColor)]
    {
      primaryColor := color;
      storage := storage[PRIMARY_KEY := color];
      UpdateCssVariables(color, secondaryColor);
    }

    /** The mirror image of `SetPrimaryColor`. */
    method SetSecondaryColor(color: string)
      modifies this
      ensures Valid()
      ensures secondaryColor == color && primaryColor == old(primaryColor)
      ensures storage == old(storage)[SECONDARY_KEY := color]
      ensures style == old(style)[PRIMARY_VAR := CssValue(primaryColor)][SECONDARY_VAR := CssValue(color)]
    {
      secondaryColor := color;
      storage := storage[SECONDARY_KEY := color];
      UpdateCssVariables(primaryColor, color);
    }

    /** Restores both defaults, forgets both stored colours and renders the
        default style text. */
    method ResetColors()
      modifies this
      ensures primaryColor == DEFAULT_PRIMARY && secondaryColor == DEFAULT_SECONDARY
      ensures storage == old(storage) - {PRIMARY_KEY, SECONDARY_KEY}
      ensures style == old(style)[PRIMARY_VAR := CssValue(primaryColor)][SECONDARY_VAR := CssValue(secondaryColor)]
      ensures Valid()
    {
      primaryColor := DEFAULT_PRIMARY;
      secondaryColor := DEFAULT_SECONDARY;
      storage := storage - {PRIMARY_KEY, SECONDARY_KEY};
      UpdateCssVariables(primaryColor, secondaryColor);
    }
  }

  /** A colour set in one session is the colour the next session starts
      with, unless it was empty, in which case the default returns; the other
      slot is read back as it was before. A reload keeps the storage and
      starts from an empty inline style. */
  method ReloadAfterSetPrimary(stored: map<string, string>, style: map<string, string>, color: string)
    returns (primary: string, secondary: string)
    ensures primary == (if color == "" then DEFAULT_PRIMARY else color)
    ensures secondary == StoredOr(stored, SECONDARY_KEY, DEFAULT_SECONDARY)
  {
    var session := new ThemeStore(stored, style);
    session.MountEffect();
    session.SetPrimaryColor(color);
    var next := new ThemeStore(session.storage, map[]);
    next.MountEffect();
    primary, secondary := next.primaryColor, next.secondaryColor;
  }

  /** The mirror image of `ReloadAfterSetPrimary`. */
  method ReloadAfterSetSecondary(stored: map<string, string>, style: map<string, string>, color: string)
    returns (primary: string, secondary: string)
    ensures secondary == (if color == "" then DEFAULT_SECONDARY else color)
    ensures primary == StoredOr(stored, PRIMARY_KEY, DEFAULT_PRIMARY)
  {
    var session := new ThemeStore(stored, style);
    session.MountEffect();
    session.SetSecondaryColor(color);
    var next := new ThemeStore(session.storage, map[]);
    next.MountEffect();
    primary, secondary := next.primaryColor, next.secondaryColor;
  }

  /** After a reset, whatever was stored before and whatever was set during
      the session, the next session starts from the defaults. */
  method ReloadAfterReset(stored: map<string, string>, style: map<string, string>, color: string)
    returns (primary: string, secondary: string, primaryCss: string)
    ensures primary == DEFAULT_PRIMARY && secondary == DEFAULT_SECONDARY
    ensures primaryCss == "208 79% 51%"
  {
    var session := new ThemeStore(stored, style);
    session.MountEffect();
    session.SetPrimaryColor(color);
    session.ResetColors();
    var next := new ThemeStore(session.storage, map[]);
    next.MountEffect();
    primary, secondary := next.primaryColor, next.secondaryColor;
    DefaultCssValues();
    primaryCss := next.style[PRIMARY_VAR];
  }
}
