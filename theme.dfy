/** The background theme shared by `src/store/backgroundStore.ts` and
    `src/hooks/useBackground.ts`: the settings record, the colour
    classifier `isDarkColor` (identical in both files), and what each
    `applyBackground` writes into the page. The page's style properties and
    class list are a record here. */
module Theme {
  import opened Wrappers
  import opened JsText

  datatype BackgroundKind = Color | Image

  datatype BackgroundSettings = BackgroundSettings(kind: BackgroundKind, value: string)

  /** `DEFAULT_SETTINGS`: a light grey colour. */
  function DefaultSettings(): BackgroundSettings
  {
    BackgroundSettings(Color, "#f5f5f5")
  }

  // ---------------------------------------------------------------------
  // isDarkColor

  /** The test `(r * 299 + g * 587 + b * 114) / 1000 < 128`. The channels
      are integers of at most a few digits, so the floating-point quotient
      is below 128 exactly when the integer numerator is below 128000. A
      NaN channel makes the comparison false. */
  predicate DarkBrightness(r: Option<int>, g: Option<int>, b: Option<int>)
  {
    r.Some? && g.Some? && b.Some? && 299 * r.value + 587 * g.value + 114 * b.value < 128000
  }

  /** The three `parseInt(hex.substring(k, k + 2), 16)` of a `#` colour,
      where `hex` is the colour without its leading `#`. `substring` cuts
      the UTF-16 code units of the string, not its characters. */
  function HexChannels(color: string): (Option<int>, Option<int>, Option<int>)
    requires StartsWith(color, "#")
  {
    var hex := Utf16(color[1..]);
    (ParseIntHex(UnitsText(Substring(hex, 0, 2))),
     ParseIntHex(UnitsText(Substring(hex, 2, 4))),
     ParseIntHex(UnitsText(Substring(hex, 4, 6))))
  }

  /** The three captures of `/rgba?\((\d+),\s*(\d+),\s*(\d+)/`, already
      read as decimal numbers. */
  datatype RgbMatch = RgbMatch(r: nat, g: nat, b: nat)

  /** A `(\d+)` capture: its value and the position after it. */
  datatype Capture = Capture(value: nat, end: nat)

  /** The capture starting at `i`, if a digit is there. */
  function Digits(s: string, i: nat): (r: Option<Capture>)
    requires i <= |s|
    ensures r.Some? ==> i < r.value.end <= |s|
  {
    var j := DigitRunEnd(s, i);
    if j == i then None else Some(Capture(DecimalValue(s, i, j), j))
  }

  /** The pattern tried at position `p`. Backtracking never helps it: each
      digit run must be followed by a comma or is the last one, a space run
      by a digit, and an `a` after `rgb` is not a parenthesis, so one greedy
      pass decides the match. */
  function MatchRgbAt(s: string, p: nat): Option<RgbMatch>
    requires p <= |s|
  {
    if !(p + 3 <= |s| && s[p] == 'r' && s[p + 1] == 'g' && s[p + 2] == 'b') then None
    else
      var q := if p + 3 < |s| && s[p + 3] == 'a' then p + 4 else p + 3;
      if q < |s| && s[q] == '(' then MatchCaptures(s, q + 1, []) else None
  }

  /** The rest of the pattern from the capture at `i` on, `caps` holding
      the captures already read: each capture but the last must be
      followed by a comma and optional white space. */
  function MatchCaptures(s: string, i: nat, caps: seq<nat>): Option<RgbMatch>
    requires i <= |s| && |caps| < 3
    decreases 3 - |caps|
  {
    match Digits(s, i)
    case None => None
    case Some(Capture(v, e)) =>
      if |caps| == 2 then Some(RgbMatch(caps[0], caps[1], v))
      else if e < |s| && s[e] == ',' then MatchCaptures(s, SpaceRunEnd(s, e + 1), caps + [v])
      else None
  }

  datatype Found = Found(at: nat, rgb: RgbMatch)

  /** The first position in `p..n` at which `f` gives a match. */
  function FirstFrom(f: nat -> Option<RgbMatch>, p: nat, n: nat): Option<Found>
    decreases n - p
  {
    if p > n then None
    else
      match f(p)
      case Some(m) => Some(Found(p, m))
      case None => if p == n then None else FirstFrom(f, p + 1, n)
  }

  lemma {:induction false} FirstFromSpec(f: nat -> Option<RgbMatch>, p: nat, n: nat)
    requires p <= n
    ensures var r := FirstFrom(f, p, n);
      (r.Some? ==>
        p <= r.value.at <= n && f(r.value.at) == Some(r.value.rgb) &&
        forall k :: p <= k < r.value.at ==> f(k).None?) &&
      (r.None? ==> forall k :: p <= k <= n ==> f(k).None?)
    decreases n - p
  {
    if f(p).None? && p < n {
      FirstFromSpec(f, p + 1, n);
    }
  }

  /** The pattern tried at every position, out of range included. */
  function MatchesOf(s: string): nat -> Option<RgbMatch>
  {
    (k: nat) => if k <= |s| then MatchRgbAt(s, k) else None
  }

  /** `String.prototype.match` without the global flag: the match at the
      leftmost position, from `p` on, where the pattern matches. */
  function FirstRgbMatch(s: string, p: nat): Option<Found>
  {
    FirstFrom(MatchesOf(s), p, |s|)
  }

  /** The match found is a match, and no position before it matches; no
      match is found only when the pattern matches nowhere. */
  lemma FirstRgbMatchSpec(s: string, p: nat)
    requires p <= |s|
    ensures var r := FirstRgbMatch(s, p);
      (r.Some? ==>
        p <= r.value.at <= |s| && MatchRgbAt(s, r.value.at) == Some(r.value.rgb) &&
        forall k :: p <= k < r.value.at ==> MatchRgbAt(s, k).None?) &&
      (r.None? ==> forall k :: p <= k <= |s| ==> MatchRgbAt(s, k).None?)
  {
    FirstFromSpec(MatchesOf(s), p, |s|);
    forall k: nat | k <= |s|
      ensures MatchesOf(s)(k) == MatchRgbAt(s, k)
    {
    }
  }

  /** `isDarkColor(color)`: a `#` colour is judged by its hex channels, an
      `rgb` colour by the first match of the pattern, anything else (and an
      `rgb` string without a match) is light. */
  function IsDarkColor(color: string): (dark: bool)
    ensures dark ==> StartsWith(color, "#") || StartsWith(color, "rgb")
  {
    if StartsWith(color, "#") then
      var (r, g, b) := HexChannels(color);
      DarkBrightness(r, g, b)
    else if StartsWith(color, "rgb") then
      match FirstRgbMatch(color, 0)
      case Some(found) => DarkBrightness(Some(found.rgb.r), Some(found.rgb.g), Some(found.rgb.b))
      case None => false
    else false
  }

  /** When the six characters after `#` lie in the Basic Multilingual
      Plane, each channel's units are two of those characters. */
  lemma SubstringOfHex(color: string, k: nat)
    requires |color| >= 7 && k <= 4
    requires IsBmp(color[1..7])
    ensures UnitsText(Substring(Utf16(color[1..]), k, k + 2)) == color[k + 1..k + 3]
  {
    assert color[1..] == color[1..7] + color[7..];
    Utf16Append(color[1..7], color[7..]);
    BmpUnits(color[1..7]);
    var units := Utf16(color[1..]);
    var pair := UnitsText(Substring(units, k, k + 2));
    assert units[k] == Utf16(color[1..7])[k] == color[k + 1] as int;
    assert units[k + 1] == Utf16(color[1..7])[k + 1] == color[k + 2] as int;
    assert pair[0] == color[k + 1] && pair[1] == color[k + 2];
  }

  /** A `#` colour is judged by its three hex channels. */
  lemma HashColorDarkness(color: string)
    requires StartsWith(color, "#")
    ensures IsDarkColor(color) == DarkBrightness(HexChannels(color).0, HexChannels(color).1, HexChannels(color).2)
  {
  }

  /** One channel of a colour whose six characters after `#` are hex. */
  lemma HexChannelValue(color: string, k: nat)
    requires |color| >= 7 && k <= 4
    requires forall i :: 1 <= i < 7 ==> IsHexDigit(color[i])
    ensures ParseIntHex(UnitsText(Substring(Utf16(color[1..]), k, k + 2))) == Some(HexPair(color, k + 1))
  {
    assert IsBmp(color[1..7]) by {
      forall i | 0 <= i < 6
        ensures color[1..7][i] as int < 0x1_0000
      {
        assert IsHexDigit(color[i + 1]);
      }
    }
    assert IsHexDigit(color[k + 1]) && IsHexDigit(color[k + 2]);
    ParsePairAfter(color, k);
    SubstringOfHex(color, k);
  }

  /** The channels of a colour whose six characters after `#` are hex. */
  lemma SixDigitHexChannels(color: string)
    requires |color| >= 7 && color[0] == '#'
    requires forall i :: 1 <= i < 7 ==> IsHexDigit(color[i])
    ensures StartsWith(color, "#")
    ensures HexChannels(color) == (Some(HexPair(color, 1)), Some(HexPair(color, 3)), Some(HexPair(color, 5)))
  {
    assert StartsWith(color, "#");
    HexChannelValue(color, 0);
    HexChannelValue(color, 2);
    HexChannelValue(color, 4);
  }

  /** A `#RRGGBB` colour (anything may follow) is dark exactly when
      `299R + 587G + 114B < 128000`. */
  lemma SixDigitHexDarkness(color: string)
    requires |color| >= 7 && color[0] == '#'
    requires forall i :: 1 <= i < 7 ==> IsHexDigit(color[i])
    ensures IsDarkColor(color) <==>
      299 * HexPair(color, 1) + 587 * HexPair(color, 3) + 114 * HexPair(color, 5) < 128000
  {
    SixDigitHexChannels(color);
    HashColorDarkness(color);
  }

  /** A `#` colour with at most four code units after the `#` has no third
      channel, which parses to NaN, so it is light: `#000` included. */
  lemma ShortHexIsLight(color: string)
    requires StartsWith(color, "#") && |Utf16(color)| <= 5
    ensures !IsDarkColor(color)
  {
    assert color[0] == '#';
    assert Utf16(color) == [color[0] as int] + Utf16(color[1..]);
    assert Substring(Utf16(color[1..]), 4, 6) == [];
    assert UnitsText([]) == "";
  }

  /** A `#` colour whose third channel starts with half of a surrogate
      pair is light: `parseInt` finds no digit there, so the channel is
      NaN. */
  lemma SurrogateChannelIsLight(color: string)
    requires StartsWith(color, "#")
    requires |Utf16(color[1..])| > 4 && IsSurrogate(Utf16(color[1..])[4])
    ensures !IsDarkColor(color)
  {
    var third := UnitsText(Substring(Utf16(color[1..]), 4, 6));
    assert third[0] == '\U{FFFD}';
    assert TrimStart(third) == third;
  }

  /** So a character outside the Basic Multilingual Plane shifts the
      channels by a unit: in `#000😀00` the third channel starts with the
      second half of the pair and the colour is light, although its
      characters read as three black channels. */
  lemma AstralCharSplitsChannel()
    ensures !IsDarkColor("#000\U{1F600}00")
  {
    var color := "#000\U{1F600}00";
    var rest := color[1..];
    var head := rest[..4];
    assert rest == head + rest[4..];
    assert head == "000" + ['\U{1F600}'];
    Utf16Append(head, rest[4..]);
    Utf16Append("000", ['\U{1F600}']);
    BmpUnits("000");
    AstralTakesTwoUnits('\U{1F600}');
    assert Utf16(rest)[4] == Utf16(['\U{1F600}'])[1];
    SurrogateChannelIsLight(color);
  }

  /** A colour that starts with neither `#` nor `rgb` is light. */
  lemma OtherFormatsAreLight(color: string)
    requires !StartsWith(color, "#") && !StartsWith(color, "rgb")
    ensures !IsDarkColor(color)
  {
  }

  /** An `rgb` colour in which the pattern matches nowhere is light. */
  lemma UnmatchedRgbIsLight(color: string)
    requires StartsWith(color, "rgb")
    requires forall k :: 0 <= k <= |color| ==> MatchRgbAt(color, k).None?
    ensures !IsDarkColor(color)
  {
    FirstRgbMatchSpec(color, 0);
    assert !StartsWith(color, "#") by {
      assert color[0] == 'r';
    }
  }

  lemma {:induction false} DigitRunEndIs(s: string, i: nat, j: nat)
    requires i <= j <= |s|
    requires DigitsBetween(s, i, j)
    requires j == |s| || !IsDigit(s[j])
    ensures DigitRunEnd(s, i) == j
    decreases j - i
  {
    if i < j {
      DigitRunEndIs(s, i + 1, j);
    }
  }

  lemma {:induction false} SpaceRunEndIs(s: string, i: nat, j: nat)
    requires i <= j <= |s|
    requires SpacesBetween(s, i, j)
    requires j == |s| || !IsJsSpace(s[j])
    ensures SpaceRunEnd(s, i) == j
    decreases j - i
  {
    if i < j {
      SpaceRunEndIs(s, i + 1, j);
    }
  }

  /** `s[i..j]` is all decimal digits. */
  predicate DigitsBetween(s: string, i: nat, j: nat)
    requires i <= j <= |s|
    decreases j - i
  {
    i == j || (IsDigit(s[i]) && DigitsBetween(s, i + 1, j))
  }

  /** `s[i..j]` is all white space. */
  predicate SpacesBetween(s: string, i: nat, j: nat)
    requires i <= j <= |s|
    decreases j - i
  {
    i == j || (IsJsSpace(s[i]) && SpacesBetween(s, i + 1, j))
  }

  /** `R,<spaces>G,<spaces>B` from `i` on, followed by a non-digit or
      nothing: `i..r1` holds R, `r1` is the comma after it, `g0..g1` holds
      G and `b0..b1` holds B. */
  predicate RgbLayout(s: string, i: nat, r1: nat, g0: nat, g1: nat, b0: nat, b1: nat)
  {
    i < r1 < g0 < g1 < b0 < b1 <= |s| &&
    DigitsBetween(s, i, r1) && s[r1] == ',' && SpacesBetween(s, r1 + 1, g0) &&
    GreenLayout(s, g0, g1, b0, b1)
  }

  /** The part of that layout from G on. */
  predicate GreenLayout(s: string, g0: nat, g1: nat, b0: nat, b1: nat)
  {
    g0 < g1 < b0 < b1 <= |s| &&
    DigitsBetween(s, g0, g1) && s[g1] == ',' && SpacesBetween(s, g1 + 1, b0) &&
    DigitsBetween(s, b0, b1) &&
    (b1 == |s| || !IsDigit(s[b1]))
  }

  /** The pattern matches at the start of `rgb(` followed by that layout. */
  lemma RgbMatchesAtStart(s: string, r1: nat, g0: nat, g1: nat, b0: nat, b1: nat)
    requires |s| >= 4 && s[0] == 'r' && s[1] == 'g' && s[2] == 'b' && s[3] == '('
    requires RgbLayout(s, 4, r1, g0, g1, b0, b1)
    ensures MatchRgbAt(s, 0) == Some(RgbMatch(DecimalValue(s, 4, r1), DecimalValue(s, g0, g1), DecimalValue(s, b0, b1)))
  {
    RedAt(s, 4, r1, g0, g1, b0, b1);
  }

  /** The stages of the match: from the red capture at `i` on. */
  lemma RedAt(s: string, i: nat, r1: nat, g0: nat, g1: nat, b0: nat, b1: nat)
    requires RgbLayout(s, i, r1, g0, g1, b0, b1)
    ensures MatchCaptures(s, i, []) == Some(RgbMatch(DecimalValue(s, i, r1), DecimalValue(s, g0, g1), DecimalValue(s, b0, b1)))
  {
    var r := DecimalValue(s, i, r1);
    DigitsIs(s, i, r1);
    SpaceRunEndIs(s, r1 + 1, g0);
    GreenAt(s, r, g0, g1, b0, b1);
    assert [] + [r] == [r];
    CaptureStep(s, i, [], r, r1, RgbMatch(r, DecimalValue(s, g0, g1), DecimalValue(s, b0, b1)));
  }

  /** One capture followed by a comma, then the rest of the match. */
  lemma CaptureStep(s: string, i: nat, caps: seq<nat>, v: nat, e: nat, m: RgbMatch)
    requires i <= |s| && |caps| < 2 && e < |s| && s[e] == ','
    requires Digits(s, i) == Some(Capture(v, e))
    requires MatchCaptures(s, SpaceRunEnd(s, e + 1), caps + [v]) == Some(m)
    ensures MatchCaptures(s, i, caps) == Some(m)
  {
  }

  /** From the green capture at `g0` on. */
  lemma GreenAt(s: string, r: nat, g0: nat, g1: nat, b0: nat, b1: nat)
    requires GreenLayout(s, g0, g1, b0, b1)
    ensures MatchCaptures(s, g0, [r]) == Some(RgbMatch(r, DecimalValue(s, g0, g1), DecimalValue(s, b0, b1)))
  {
    var g := DecimalValue(s, g0, g1);
    DigitsIs(s, g0, g1);
    SpaceRunEndIs(s, g1 + 1, b0);
    DigitsIs(s, b0, b1);
    assert [r] + [g] == [r, g];
    assert MatchCaptures(s, b0, [r, g]) == Some(RgbMatch(r, g, DecimalValue(s, b0, b1)));
  }

  /** A capture that spans exactly the digit run `i..j`. */
  lemma DigitsIs(s: string, i: nat, j: nat)
    requires i < j <= |s|
    requires DigitsBetween(s, i, j)
    requires j == |s| || !IsDigit(s[j])
    ensures Digits(s, i) == Some(Capture(DecimalValue(s, i, j), j))
  {
    DigitRunEndIs(s, i, j);
  }

  /** Such an `rgb` colour is judged by the same threshold as a hex
      colour. */
  lemma RgbDarkness(s: string, r1: nat, g0: nat, g1: nat, b0: nat, b1: nat)
    requires |s| >= 4 && s[0] == 'r' && s[1] == 'g' && s[2] == 'b' && s[3] == '('
    requires RgbLayout(s, 4, r1, g0, g1, b0, b1)
    ensures IsDarkColor(s) <==>
      299 * DecimalValue(s, 4, r1) + 587 * DecimalValue(s, g0, g1) + 114 * DecimalValue(s, b0, b1) < 128000
  {
    var m := RgbMatch(DecimalValue(s, 4, r1), DecimalValue(s, g0, g1), DecimalValue(s, b0, b1));
    assert MatchRgbAt(s, 0) == Some(m) by {
      RgbMatchesAtStart(s, r1, g0, g1, b0, b1);
    }
    RgbColorDarkness(s, m);
  }

  /** An `rgb` colour on which the pattern matches at the very start is
      judged by that match. */
  lemma RgbColorDarkness(s: string, m: RgbMatch)
    requires |s| >= 3 && s[0] == 'r' && s[1] == 'g' && s[2] == 'b'
    requires MatchRgbAt(s, 0) == Some(m)
    ensures IsDarkColor(s) == DarkBrightness(Some(m.r), Some(m.g), Some(m.b))
  {
    assert StartsWith(s, "rgb") by {
      assert s[..3] == "rgb";
    }
    assert !StartsWith(s, "#");
    assert FirstRgbMatch(s, 0) == Some(Found(0, m));
  }

  /** The default background is light: each channel is 0xf5 = 245, so the
      brightness is 245. */
  lemma DefaultIsLight()
    ensures !IsDarkColor(DefaultSettings().value)
    ensures HexPair(DefaultSettings().value, 1) == 245
  {
    var c := DefaultSettings().value;
    assert c == "#f5f5f5";
    assert |c| == 7 && c[0] == '#' && c[1] == 'f' && c[2] == '5';
    assert forall i :: 1 <= i < 7 ==> IsHexDigit(c[i]);
    assert HexPair(c, 1) == 245 && HexPair(c, 3) == 245 && HexPair(c, 5) == 245;
    SixDigitHexDarkness(c);
  }

  // ---------------------------------------------------------------------
  // applyBackground

  /** What `applyBackground` writes: the body's background properties, the
      body's class list, and the three text-colour variables of the root
      element. */
  datatype Page = Page(
    background: string, attachment: string, position: string, size: string, repeat: string,
    classes: set<string>,
    textPrimary: string, textSecondary: string, textTertiary: string)

  const DarkTheme := "dark-theme"
  const ShowOverlay := "show-overlay"
  const HideOverlay := "hide-overlay"

  /** White text for dark backgrounds, dark grey text for light ones. */
  function LightText(p: Page): Page
  {
    p.(textPrimary := "#ffffff", textSecondary := "#cccccc", textTertiary := "#aaaaaa")
  }

  function DarkText(p: Page): Page
  {
    p.(textPrimary := "#333333", textSecondary := "#666666", textTertiary := "#999999")
  }

  /** The style properties of a colour and of an image background. */
  function ColorStyle(p: Page, value: string): Page
  {
    p.(background := value, attachment := "", position := "", size := "", repeat := "")
  }

  function ImageStyle(p: Page, value: string): Page
  {
    p.(background := "url(" + value + ")", attachment := "fixed", position := "center", size := "cover", repeat := "no-repeat")
  }

  /** The style properties of a setting. */
  function StyleOf(p: Page, s: BackgroundSettings): Page
  {
    match s.kind
    case Color => ColorStyle(p, s.value)
    case Image => ImageStyle(p, s.value)
  }

  /** Whether a setting gets the dark theme: a dark colour or any image. */
  predicate DarkSetting(s: BackgroundSettings)
  {
    match s.kind
    case Color => IsDarkColor(s.value)
    case Image => true
  }

  /** The theme class and text colours the hook writes, once decided. */
  function HookTheme(p: Page, dark: bool): Page
  {
    if dark then LightText(p.(classes := p.classes + {DarkTheme}))
    else DarkText(p.(classes := p.classes - {DarkTheme}))
  }

  /** The store's classes and text colours, once decided: `hide-overlay`
      goes with a dark colour, `show-overlay` with everything else. */
  function StoreTheme(p: Page, dark: bool, image: bool): Page
  {
    if dark && !image then LightText(p.(classes := p.classes + {DarkTheme, HideOverlay}))
    else if dark then LightText(p.(classes := p.classes + {DarkTheme, ShowOverlay}))
    else DarkText(p.(classes := p.classes - {DarkTheme} + {ShowOverlay}))
  }

  /** The hook's `applyBackground`: style, theme class and text colours;
      it never touches the overlay classes. */
  function ApplyHook(p: Page, s: BackgroundSettings): (r: Page)
    ensures forall c :: c != DarkTheme ==> (c in r.classes <==> c in p.classes)
  {
    HookTheme(StyleOf(p, s), DarkSetting(s))
  }

  /** The store's `applyBackground`: the same, after removing both overlay
      classes, and then adding `hide-overlay` for a dark colour and
      `show-overlay` otherwise. */
  function ApplyStore(p: Page, s: BackgroundSettings): (r: Page)
    ensures DarkTheme in r.classes <==> s.kind == Image || IsDarkColor(s.value)
  {
    StoreTheme(StyleOf(WithoutOverlays(p), s), DarkSetting(s), s.kind == Image)
  }

  /** `classList.remove('show-overlay', 'hide-overlay')`. */
  function WithoutOverlays(p: Page): Page
  {
    p.(classes := p.classes - {ShowOverlay, HideOverlay})
  }

  /** The store's theme decision: a dark colour gives the dark theme with
      the overlay hidden and white text, a light colour no dark theme with
      the overlay shown and dark text, an image the dark theme with the
      overlay shown; exactly one overlay class remains, and no other class
      is touched. */
  lemma ApplyStoreTheme(p: Page, s: BackgroundSettings)
    ensures var r := ApplyStore(p, s);
      (ShowOverlay in r.classes <==> HideOverlay !in r.classes) &&
      (s.kind == Color && IsDarkColor(s.value) ==>
        DarkTheme in r.classes && HideOverlay in r.classes && r.textPrimary == "#ffffff") &&
      (s.kind == Color && !IsDarkColor(s.value) ==>
        DarkTheme !in r.classes && ShowOverlay in r.classes && r.textPrimary == "#333333") &&
      (s.kind == Image ==> DarkTheme in r.classes && ShowOverlay in r.classes && r.textPrimary == "#ffffff") &&
      (forall c :: c != DarkTheme && c != ShowOverlay && c != HideOverlay ==> (c in r.classes <==> c in p.classes))
  {
    var q := StyleOf(WithoutOverlays(p), s);
    assert q.classes == p.classes - {ShowOverlay, HideOverlay};
    StoreThemeSpec(q, DarkSetting(s), s.kind == Image);
  }

  /** The store's theme once decided, on a page without overlay classes. */
  lemma StoreThemeSpec(q: Page, dark: bool, image: bool)
    requires ShowOverlay !in q.classes && HideOverlay !in q.classes
    ensures var r := StoreTheme(q, dark, image);
      (ShowOverlay in r.classes <==> HideOverlay !in r.classes) &&
      (dark && !image ==> DarkTheme in r.classes && HideOverlay in r.classes && r.textPrimary == "#ffffff") &&
      (!dark ==> DarkTheme !in r.classes && ShowOverlay in r.classes && r.textPrimary == "#333333") &&
      (dark && image ==> DarkTheme in r.classes && ShowOverlay in r.classes && r.textPrimary == "#ffffff") &&
      (forall c :: c != DarkTheme && c != ShowOverlay && c != HideOverlay ==> (c in r.classes <==> c in q.classes))
  {
  }

  /** The hook's theme decision: `dark-theme` is present exactly for a dark
      colour or an image, the overlay classes are left as they were. */
  lemma ApplyHookTheme(p: Page, s: BackgroundSettings)
    ensures var r := ApplyHook(p, s);
      (DarkTheme in r.classes <==> s.kind == Image || IsDarkColor(s.value)) &&
      (r.textPrimary == "#ffffff" <==> DarkTheme in r.classes) &&
      (forall c :: c != DarkTheme ==> (c in r.classes <==> c in p.classes))
  {
  }

  /** Every write of either version depends on the settings alone (and, for
      classes, on the classes it does not manage), so the last apply wins. */
  lemma LastApplyWinsStore(p: Page, s1: BackgroundSettings, s2: BackgroundSettings)
    ensures ApplyStore(ApplyStore(p, s1), s2) == ApplyStore(p, s2)
  {
    StoreThemeTwice(p, s1, DarkSetting(s1), s2, DarkSetting(s2));
  }

  lemma StoreThemeTwice(p: Page, s1: BackgroundSettings, d1: bool, s2: BackgroundSettings, d2: bool)
    ensures var once := StoreTheme(StyleOf(WithoutOverlays(p), s1), d1, s1.kind == Image);
      StoreTheme(StyleOf(WithoutOverlays(once), s2), d2, s2.kind == Image) ==
      StoreTheme(StyleOf(WithoutOverlays(p), s2), d2, s2.kind == Image)
  {
    var managed := {DarkTheme, ShowOverlay, HideOverlay};
    var q := StoreTheme(StyleOf(WithoutOverlays(p), s1), d1, s1.kind == Image);
    assert q.classes - managed == p.classes - managed;
    var a := StoreTheme(StyleOf(WithoutOverlays(q), s2), d2, s2.kind == Image);
    var b := StoreTheme(StyleOf(WithoutOverlays(p), s2), d2, s2.kind == Image);
    assert a.classes - managed == b.classes - managed;
    assert a.classes * managed == b.classes * managed;
    assert a.classes == (a.classes - managed) + (a.classes * managed);
    assert b.classes == (b.classes - managed) + (b.classes * managed);
  }

  lemma LastApplyWinsHook(p: Page, s1: BackgroundSettings, s2: BackgroundSettings)
    ensures ApplyHook(ApplyHook(p, s1), s2) == ApplyHook(p, s2)
  {
    HookThemeTwice(p, s1, DarkSetting(s1), s2, DarkSetting(s2));
  }

  lemma HookThemeTwice(p: Page, s1: BackgroundSettings, d1: bool, s2: BackgroundSettings, d2: bool)
    ensures HookTheme(StyleOf(HookTheme(StyleOf(p, s1), d1), s2), d2) == HookTheme(StyleOf(p, s2), d2)
  {
    var q := HookTheme(StyleOf(p, s1), d1);
    assert q.classes - {DarkTheme} == p.classes - {DarkTheme};
    var a, b := HookTheme(StyleOf(q, s2), d2), HookTheme(StyleOf(p, s2), d2);
    assert a.classes - {DarkTheme} == b.classes - {DarkTheme};
    assert (DarkTheme in a.classes) == (DarkTheme in b.classes);
    assert a.classes == (a.classes - {DarkTheme}) + (a.classes * {DarkTheme});
    assert b.classes == (b.classes - {DarkTheme}) + (b.classes * {DarkTheme});
  }

  /** Applying a light colour: that background, no dark theme and dark
      text in both versions, and the overlay shown by the store's. */
  lemma ApplyLightColor(p: Page, s: BackgroundSettings)
    requires s.kind == Color && !IsDarkColor(s.value)
    ensures var r := ApplyStore(p, s);
      r.background == s.value && DarkTheme !in r.classes && ShowOverlay in r.classes &&
      HideOverlay !in r.classes && r.textPrimary == "#333333" &&
      (forall c :: c != DarkTheme && c != ShowOverlay && c != HideOverlay ==> (c in r.classes <==> c in p.classes))
    ensures var r := ApplyHook(p, s);
      r.background == s.value && DarkTheme !in r.classes && r.textPrimary == "#333333" &&
      (forall c :: c != DarkTheme ==> (c in r.classes <==> c in p.classes))
  {
  }

  /** The default is such a light colour, `#f5f5f5`. */
  lemma ApplyDefault(p: Page)
    ensures var r := ApplyStore(p, DefaultSettings());
      r.background == "#f5f5f5" && DarkTheme !in r.classes && ShowOverlay in r.classes &&
      HideOverlay !in r.classes && r.textPrimary == "#333333"
    ensures var r := ApplyHook(p, DefaultSettings());
      r.background == "#f5f5f5" && DarkTheme !in r.classes && r.textPrimary == "#333333"
  {
    DefaultIsLight();
    ApplyLightColor(p, DefaultSettings());
  }

  /** Both versions agree on everything but the overlay classes. */
  lemma ApplyVersionsAgree(p: Page, s: BackgroundSettings)
    requires ShowOverlay !in p.classes && HideOverlay !in p.classes
    ensures ApplyStore(p, s).(classes := ApplyStore(p, s).classes - {ShowOverlay, HideOverlay}) == ApplyHook(p, s)
  {
  }
}
