# Theme customizer and testimonial carousel of the clinic site

A Dafny model of the three pieces of logic in this marketing site:

- **`hexToHSL`** (`src/context/ThemeContext.tsx`). It strips one optional leading `#` and
  reads the next six hex digits as three 0..255 channels. It then applies the RGB→HSL
  formulas and rounds hue to integer degrees and saturation/lightness to integer percent.
  The model computes over exact reals. `Math.round(x)` is `(x + 0.5).Floor`.
- **`ThemeProvider`** (same file). It is modelled as the class `ThemeContext.ThemeStore`,
  with the two colour slots, the browser storage (`localStorage`) as a
  `map<string, string>` and the document's style properties as a second map. The
  operations are the initial read with fallback to the defaults `#1E88E5` / `#26C6DA`,
  the mount effect that first writes the style (`MountEffect`), `setPrimaryColor`, `setSecondaryColor`, `resetColors`
  and `updateCssVariables`.
- **The customizer panel** (`src/components/ColorPicker.tsx`). It has a text-field guard
  (`startsWith('#') && length <= 7`), native colour inputs that forward unconditionally
  and a reset button. Each is a method acting on the shared `ThemeStore`.
- **The testimonial carousel** (`src/components/TestimonialsSection.tsx`). It is the class
  `Testimonials.Carousel`, holding `activeIndex` and the `animating` lock. Prev and next
  wrap around, dots jump to an index, and the 500 ms timeout is the explicit event
  `AnimationDone`.

Files: `Wrappers.dfy` (Option), `ColorMath.dfy`, `CssText.dfy` (the `h s% l%` style text),
`ThemeContext.dfy`, `ColorPicker.dfy`, `Testimonials.dfy`.

Facts about the code that the model makes explicit:

- `hexToHSL("#1E88E5")` is `{h:208, s:79, l:51}` and `hexToHSL("#26C6DA")` is
  `{h:187, s:71, l:50}` (`ColorMath.DefaultPrimaryHsl`, `ColorMath.DefaultSecondaryHsl`).
- Every value passing a text field's guard goes straight to `setPrimaryColor` or
  `setSecondaryColor`. Partial text such as `#1E` is therefore stored and persisted
  verbatim (`ColorPicker.TypePartialPrimary`). No separate HSL value is kept.
- The code has no error for malformed text. The model returns `None` for it (see
  "Left out").
- The guard's `length` counts UTF-16 code units, so a character outside the Basic
  Multilingual Plane counts twice (`ColorPicker.Utf16Length`).

## Model

| member | source | states |
|---|---|---|
| `ColorMath.StripHash` | src/context/ThemeContext.tsx:91 | only one leading `#` is removed; text without one is returned unchanged |
| `ColorMath.ParseRgbRoundTrip` | src/context/ThemeContext.tsx:91-96 | every colour written as `#RRGGBB` (upper-case hex digits) is read back as exactly its three channels |
| `ColorMath.ParseRgb` | src/context/ThemeContext.tsx:94-96 | the channels are read exactly when the six characters after the optional `#` are hex digits |
| `ColorMath.HexDigitChar` | src/context/ThemeContext.tsx:94-96 | the written digit is a hex digit whose `parseInt` value is the given value |
| `ColorMath.HexPair` | src/context/ThemeContext.tsx:94-96 | two hex digits whose base-16 value is the channel |
| `ColorMath.Round` | src/context/ThemeContext.tsx:133-137 | `Math.round`: the result lies in (x − ½, x + ½], so halves round up |
| `ColorMath.Max3` | src/context/ThemeContext.tsx:99 | `Math.max`: at least each argument and equal to one of them |
| `ColorMath.Min3` | src/context/ThemeContext.tsx:100 | `Math.min`: at most each argument and equal to one of them |
| `ColorMath.HexToHsl` | src/context/ThemeContext.tsx:89-138 | a result exists exactly for text whose first six post-`#` characters are hex digits |
| `ColorMath.LeadingHashIgnored` | src/context/ThemeContext.tsx:91 | `hexToHSL("#"+x) == hexToHSL(x)` for x not starting with `#`; a second `#` makes the text unparsable |
| `ColorMath.OnlyFirstSixDigitsMatter` | src/context/ThemeContext.tsx:94-96 | two texts whose six characters after the `#` agree give the same result |
| `ColorMath.CaseInsensitive` | src/context/ThemeContext.tsx:94-96 | lower-casing the text never changes the result (`#1e88e5` ≡ `#1E88E5`) |
| `ColorMath.ChromaticDivisorsPositive` | src/context/ThemeContext.tsx:111-124 | when max ≠ min, the divisors `max−min`, `max+min` and `2−max−min` are all positive |
| `ColorMath.SaturationLightnessBounds` | src/context/ThemeContext.tsx:103-113 | saturation and lightness fractions lie in [0, 1] |
| `ColorMath.HueBounds` | src/context/ThemeContext.tsx:115-129 | the hue fraction (after `h /= 6`) lies in [0, 1] |
| `ColorMath.HslRange` | src/context/ThemeContext.tsx:103-137 | every parsed colour gives 0 ≤ h ≤ 360, 0 ≤ s ≤ 100 and 0 ≤ l ≤ 100 |
| `ColorMath.Achromatic` | src/context/ThemeContext.tsx:107-110 | a grey (r = g = b) gives h = 0 and s = 0, with l the rounded channel percentage |
| `ColorMath.HueSector` | src/context/ThemeContext.tsx:116-129 | the hue falls in the sector of the dominant channel; ties resolved red, then green, then blue land on the shared boundary (60°, 180°, 300°) |
| `ColorMath.DefaultPrimaryHsl` | src/context/ThemeContext.tsx:94-137 | `#1E88E5` converts to {h:208, s:79, l:51} |
| `ColorMath.DefaultSecondaryHsl` | src/context/ThemeContext.tsx:94-137 | `#26C6DA` converts to {h:187, s:71, l:50} |
| `ColorMath.RoundsUpToFullTurn` | src/context/ThemeContext.tsx:133-137 | `#FF0001` converts to {h:360, s:100, l:50}: the hue can round up to exactly 360 |
| `ColorMath.BlackAndWhite` | src/context/ThemeContext.tsx:107-110 | `#000000` → {0,0,0}; `#FFFFFF` and `#ffffff` → {0,0,100} |
| `CssText.NatTextRoundTrip` | src/context/ThemeContext.tsx:61 | reading back the decimal text of a number written into the template gives the number |
| `CssText.NatText` | src/context/ThemeContext.tsx:61 | JavaScript's decimal rendering of a number: at least one digit, only digits, no leading zero |
| `CssText.HslTextForm` | src/context/ThemeContext.tsx:61 | the text `HslText` fills into the `${h} ${s}% ${l}%` template starts with a digit and ends with `%` |
| `CssText.HslTextInjective` | src/context/ThemeContext.tsx:61-65 | distinct HSL triples yield distinct `h s% l%` texts |
| `CssText.DefaultPrimaryText` | src/context/ThemeContext.tsx:59-61 | the default primary triple {208, 79, 51} renders as `208 79% 51%` |
| `CssText.DefaultSecondaryText` | src/context/ThemeContext.tsx:63-65 | the default secondary triple {187, 71, 50} renders as `187 71% 50%` |
| `ThemeContext.StoredOr` | src/context/ThemeContext.tsx:28-34 | the stored value or the default: a stored non-empty value wins; a missing or empty one gives the default |
| `ThemeContext.CssValue` | src/context/ThemeContext.tsx:59-65 | `hexToHSL` followed by the template; text the conversion cannot read gives the `unparsable` marker |
| `ThemeContext.CssValueDeterminesHsl` | src/context/ThemeContext.tsx:56-66 | the style text of a parsable colour is a decimal triple, never the unparsable marker, and it determines the colour's HSL value |
| `ThemeContext.DefaultCssValues` | src/context/ThemeContext.tsx:48-54 | a reset writes `208 79% 51%` to `--primary` and `187 71% 50%` to `--secondary` |
| `ThemeContext.ThemeStore.constructor` | src/context/ThemeContext.tsx:27-33 | the first render: each slot is read from storage with fallback to its default; storage and style are untouched |
| `ThemeContext.ThemeStore.MountEffect` | src/context/ThemeContext.tsx:68-70 | the mount effect writes both style variables from the slots read at the first render, and leaves the store consistent |
| `ThemeContext.ThemeStore.UpdateCssVariables` | src/context/ThemeContext.tsx:56-66 | `--primary` and `--secondary` get the style text of the two colours; no other style property changes |
| `ThemeContext.ThemeStore.SetPrimaryColor` | src/context/ThemeContext.tsx:36-40 | the primary slot and storage key take `c` verbatim; the secondary slot and every other storage entry are untouched; both style variables are rewritten from `c` and the current secondary colour, so the store is consistent afterwards |
| `ThemeContext.ThemeStore.SetSecondaryColor` | src/context/ThemeContext.tsx:42-46 | the mirror image of `SetPrimaryColor` for the secondary slot |
| `ThemeContext.ThemeStore.ResetColors` | src/context/ThemeContext.tsx:48-54 | both slots return to the defaults, both storage keys are removed (others kept), both style variables get the defaults' text |
| `ThemeContext.ReloadAfterSetPrimary` | src/context/ThemeContext.tsx:27-40 | after `setPrimaryColor(c)`, a new session (same storage, empty style) starts with `c` (or the default when `c` is empty); the secondary slot reads as before |
| `ThemeContext.ReloadAfterSetSecondary` | src/context/ThemeContext.tsx:32-46 | the mirror image for the secondary slot |
| `ThemeContext.ReloadAfterReset` | src/context/ThemeContext.tsx:27-54 | after a reset, a new session starts from both defaults and renders `--primary` as `208 79% 51%` |
| `ColorPicker.Utf16Length` | src/components/ColorPicker.tsx:48 | JavaScript's `length`: between one and two code units per character |
| `ColorPicker.AcceptsText` | src/components/ColorPicker.tsx:48 | `startsWith('#') && length <= 7`; an accepted text is a `#` followed by at most six characters |
| `ColorPicker.AcceptedTextParsable` | src/components/ColorPicker.tsx:48 | among the texts the guard accepts, `hexToHSL` can read exactly those of length 7 with six hex digits after the `#` |
| `ColorPicker.GuardExamples` | src/components/ColorPicker.tsx:48 | `#1E` passes the guard but is no colour; `1E88E5`, `""`, `#1E88E5F` and a `#` with four emoji (JavaScript length 9) are rejected |
| `ColorPicker.OnPrimaryColorInput` | src/components/ColorPicker.tsx:41 | the native input's value reaches the primary slot, its storage entry and `--primary` unchecked; the secondary slot is untouched |
| `ColorPicker.OnSecondaryColorInput` | src/components/ColorPicker.tsx:70 | the native input's value reaches the secondary slot, its storage entry and `--secondary` unchecked; the primary slot is untouched |
| `ColorPicker.OnPrimaryText` | src/components/ColorPicker.tsx:47-51 | an edit is forwarded to the primary slot iff it starts with `#` and has at most 7 characters; a rejected edit changes nothing; a value stored this way starts with `#` and has a JavaScript length of at most 7; an accepted edit leaves the store consistent |
| `ColorPicker.OnSecondaryText` | src/components/ColorPicker.tsx:76-80 | the same guard, forwarding only to the secondary slot |
| `ColorPicker.OnReset` | src/components/ColorPicker.tsx:87-95 | the reset button's effect is exactly the store's reset: defaults in both slots, both storage keys removed, both style variables rewritten |
| `ColorPicker.TypePartialPrimary` | src/components/ColorPicker.tsx:47-51 | typing `#1E` stores and persists `#1E` verbatim, and `--primary` holds no colour |
| `Testimonials.NextIndex` | src/components/TestimonialsSection.tsx:53 | the next index is `(i + 1) mod 4`, so the last wraps to 0 and the result is in bounds |
| `Testimonials.PrevIndex` | src/components/TestimonialsSection.tsx:42 | the previous index is `(i + 3) mod 4`, so 0 wraps to 3 and the result is in bounds |
| `Testimonials.PrevNextInverse` | src/components/TestimonialsSection.tsx:42-53 | previous undoes next and next undoes previous |
| `Testimonials.NextTimes` | src/components/TestimonialsSection.tsx:53 | any number of next steps stays in bounds |
| `Testimonials.NextTimesModulo` | src/components/TestimonialsSection.tsx:53 | k next steps advance the index by k modulo 4 |
| `Testimonials.FullCycle` | src/components/TestimonialsSection.tsx:53 | four next steps return to the start |
| `Testimonials.Carousel.constructor` | src/components/TestimonialsSection.tsx:35-36 | the carousel starts at index 0, not animating |
| `Testimonials.Carousel.Current` | src/components/TestimonialsSection.tsx:120-134 | the displayed testimonial is `testimonials[activeIndex]`, always in bounds |
| `Testimonials.Carousel.HandlePrev` | src/components/TestimonialsSection.tsx:38-47 | a no-op while animating; otherwise moves back one with wrap-around and sets the lock; the index stays in bounds |
| `Testimonials.Carousel.HandleNext` | src/components/TestimonialsSection.tsx:49-58 | a no-op while animating; otherwise moves on one with wrap-around and sets the lock; the index stays in bounds |
| `Testimonials.Carousel.SelectDot` | src/components/TestimonialsSection.tsx:152-170 | a no-op while animating; otherwise jumps to exactly the clicked index and sets the lock |
| `Testimonials.Carousel.AnimationDone` | src/components/TestimonialsSection.tsx:44-46 | the timeout clears the lock and leaves the index unchanged |
| `Testimonials.NextThenPrev` | src/components/TestimonialsSection.tsx:38-58 | next, the timeout, then previous return to the original index |
| `Testimonials.DoubleNextDuringAnimation` | src/components/TestimonialsSection.tsx:49-58 | a second next before the timeout is lost: the index moves only once |
| `Testimonials.RoundTrip` | src/components/TestimonialsSection.tsx:7-58 | from a fresh carousel, four next/timeout rounds show the first testimonial again |

## Left out

- Text that `hexToHSL` cannot read as six hex digits (including texts shorter than six
  digits). `parseInt` in the code yields `NaN` or the value of a leading, possibly signed, run of digits (after leading whitespace). The model returns `None`,
  and the store writes the marker `unparsable` into the style variable. The model makes no
  claim about the text the code would write there.
- IEEE-754 doubles: the model uses exact reals. A value that lands exactly on a `.5`
  boundary in exact arithmetic could round differently in JavaScript.
- `localStorage` and `document.documentElement.style` are string maps owned by the store.
  A storage write that throws (quota, disabled storage) is not modelled.
- React scheduling: each handler acts on the state of the latest render. Stale closures
  within one render are not modelled.
- The context's default value (`src/context/ThemeContext.tsx:16-23`), used only outside a
  provider, and the `useTheme` hook are not modelled.
- Rendering: JSX, the `open` flag of the customizer's popover, the carousel's opacity
  classes, the `disabled` attribute of the arrow buttons (redundant with the lock) and the
  IntersectionObserver reveal effect.
- Testimonial images and quotes: only name and position are kept, because the index logic
  depends only on the list's length.
- The 500 ms timer is the explicit event `AnimationDone`, not time.
- There is no HSL-to-hex conversion and no colour-wheel pointer geometry in the modelled
  code, so no hex→HSL→hex round-trip is stated. `src/components/ColorWheel.tsx`,
  `HSLColorSlider.tsx`, `ColorInput.tsx` and `ColorSettings.tsx` are presentational wrappers
  and are not part of this model. Neither are the navigation bar, the hero parallax, the
  static sections, the contact form or the page composition.
