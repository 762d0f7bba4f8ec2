/** What the driver does with the two dominant colours it gets back from the
    frequency analysis: it mutes them, orders them dark-to-light, picks the
    background and foreground by the `--background` mode, and derives the
    contrast minima handed to the colour picker. */
module Anchors {
  import opened Colour
  import opened Results

  /** The saturation cap applied to both dominant colours. */
  const MaxDominantSaturation: real := 0.2

  /** One dominant colour after the cap. */
  function Mute(c: Hsl): (m: Hsl)
    ensures m.h == c.h && m.l == c.l
    ensures m.s <= MaxDominantSaturation
    ensures c.s <= MaxDominantSaturation ==> m == c
    ensures c.s > MaxDominantSaturation ==> m.s == MaxDominantSaturation
  {
    if c.s > MaxDominantSaturation then c.(s := MaxDominantSaturation) else c
  }

  /** Muting a muted colour changes nothing. */
  lemma MuteIdempotent(c: Hsl)
    ensures Mute(Mute(c)) == Mute(c)
  {
  }

  /** Muting keeps a colour in range. */
  lemma MuteKeepsValid(c: Hsl)
    requires ValidHsl(c)
    ensures ValidHsl(Mute(c))
  {
  }

  /** The cap of the source, written into the array of dominant colours in
      place; entries past the first two are not touched. */
  method CapSaturation(muted: array<Hsl>)
    requires muted.Length >= 2
    modifies muted
    ensures muted[0] == Mute(old(muted[0])) && muted[1] == Mute(old(muted[1]))
    ensures forall k :: 2 <= k < muted.Length ==> muted[k] == old(muted[k])
  {
    if muted[0].s > MaxDominantSaturation {
      muted[0] := muted[0].(s := MaxDominantSaturation);
    }
    if muted[1].s > MaxDominantSaturation {
      muted[1] := muted[1].(s := MaxDominantSaturation);
    }
  }

  /** The swap through `tmp`: the darker of the two muted colours becomes
      `dark`. A tie keeps the original order. */
  method OrderAnchors(first: Hsl, second: Hsl) returns (dark: Hsl, light: Hsl)
    ensures dark.l <= light.l
    ensures multiset{dark, light} == multiset{first, second}
    ensures first.l <= second.l ==> dark == first && light == second
    ensures first.l > second.l ==> dark == second && light == first
  {
    dark := first;
    light := second;
    if dark.l > light.l {
      var tmp := light;
      light := dark;
      dark := tmp;
    }
  }

  /** The background and foreground chosen for a run. */
  datatype Pair = Pair(bg: Hsl, fg: Hsl)

  predicate IsDarkMode(mode: string) { mode == "dark" }
  predicate IsLightMode(mode: string) { mode == "light" }
  predicate IsHexMode(mode: string) { !IsDarkMode(mode) && !IsLightMode(mode) && |mode| > 0 && mode[0] == '#' }
  predicate IsAutoMode(mode: string) { !IsDarkMode(mode) && !IsLightMode(mode) && |mode| > 0 && mode[0] != '#' }

  /** Every mode is exactly one of dark, light, hex, auto, or the empty
      string (which the script cannot index). */
  lemma ModesPartition(mode: string)
    ensures mode == "" <==> !(IsDarkMode(mode) || IsLightMode(mode) || IsHexMode(mode) || IsAutoMode(mode))
    ensures IsDarkMode(mode) ==> !IsLightMode(mode) && !IsHexMode(mode) && !IsAutoMode(mode)
    ensures IsHexMode(mode) ==> !IsAutoMode(mode)
  {
  }

  /** The mode selection exactly as written: the hex branch indexes
      `bg_color[2]` on a 1x3 array and raises for every hex mode. */
  function SelectColorsAsWritten(mode: string, muted0: Hsl, muted1: Hsl, dark: Hsl, light: Hsl,
                                 hexToHsl: string -> Hsl): (r: Result<Pair>)
    ensures IsHexMode(mode) ==> r == Err(HexBackgroundIndex)
    ensures !IsHexMode(mode) ==> r == SelectColors(mode, muted0, muted1, dark, light, hexToHsl)
  {
    if IsDarkMode(mode) then Ok(Pair(dark, light))
    else if IsLightMode(mode) then Ok(Pair(light, dark))
    else if |mode| == 0 then Err(EmptyBackgroundMode)
    else if mode[0] == '#' then Err(HexBackgroundIndex)
    else Ok(Pair(muted0, muted1))
  }

  /** The mode selection with the hex branch reading the lightness of the
      decoded background, as evidently intended. `muted0` and `muted1` are
      the capped colours in the order the analysis returned them; `dark` and
      `light` are the same two after ordering. */
  function SelectColors(mode: string, muted0: Hsl, muted1: Hsl, dark: Hsl, light: Hsl,
                        hexToHsl: string -> Hsl): (r: Result<Pair>)
    ensures r.Err? <==> mode == ""
    ensures r.Err? ==> r.error == EmptyBackgroundMode
    ensures IsDarkMode(mode) ==> r == Ok(Pair(dark, light))
    ensures IsLightMode(mode) ==> r == Ok(Pair(light, dark))
    ensures IsAutoMode(mode) ==> r == Ok(Pair(muted0, muted1))
    ensures IsHexMode(mode) ==> r.Ok? && r.value.bg == hexToHsl(mode)
    ensures IsHexMode(mode) ==> r.value.fg == if hexToHsl(mode).l < 0.5 then light else dark
  {
    if IsDarkMode(mode) then Ok(Pair(dark, light))
    else if IsLightMode(mode) then Ok(Pair(light, dark))
    else if |mode| == 0 then Err(EmptyBackgroundMode)
    else if mode[0] == '#' then
      var bg := hexToHsl(mode);
      Ok(Pair(bg, if bg.l < 0.5 then light else dark))
    else Ok(Pair(muted0, muted1))
  }

  /** Any `#` mode fails as written; `#000000` is one such input. */
  lemma HexModeFailsAsWritten(muted0: Hsl, muted1: Hsl, dark: Hsl, light: Hsl, hexToHsl: string -> Hsl)
    ensures SelectColorsAsWritten("#000000", muted0, muted1, dark, light, hexToHsl) == Err(HexBackgroundIndex)
    ensures SelectColors("#000000", muted0, muted1, dark, light, hexToHsl).Ok?
  {
    assert IsHexMode("#000000");
  }

  /** With ordered anchors, dark mode gives a background no lighter than the
      foreground and light mode one no darker; every mode but auto takes the
      foreground from the ordered pair, and a dark hex background gets the
      light anchor as foreground. */
  lemma ForegroundIsAnAnchor(mode: string, muted0: Hsl, muted1: Hsl, dark: Hsl, light: Hsl,
                             hexToHsl: string -> Hsl)
    requires dark.l <= light.l
    requires mode != "" && !IsAutoMode(mode)
    ensures var p := SelectColors(mode, muted0, muted1, dark, light, hexToHsl).value;
      (p.fg == dark || p.fg == light)
      && (IsDarkMode(mode) ==> p.bg.l <= p.fg.l)
      && (IsLightMode(mode) ==> p.bg.l >= p.fg.l)
      && (IsHexMode(mode) && p.bg.l < 0.5 ==> p.fg == light)
  {
  }

  /** Auto mode uses the anchors in the order the analysis returned them:
      the ordering step has no effect on it. */
  lemma AutoIgnoresOrdering(mode: string, muted0: Hsl, muted1: Hsl, d1: Hsl, l1: Hsl, d2: Hsl, l2: Hsl,
                            hexToHsl: string -> Hsl)
    requires IsAutoMode(mode)
    ensures SelectColors(mode, muted0, muted1, d1, l1, hexToHsl) == SelectColors(mode, muted0, muted1, d2, l2, hexToHsl)
  {
  }

  /** The minimum contrast ratios against the dark and the light anchor. */
  datatype Minima = Minima(dark: real, light: real)

  /** The theme thresholds: (7, 2.5) for a dark background, (2.5, 7) when the
      background's lightness is above one half. */
  function ContrastMinima(bg: Hsl): (m: Minima)
    ensures multiset{m.dark, m.light} == multiset{7.0, 2.5}
    ensures m.light == 7.0 <==> bg.l > 0.5
    ensures m.dark == 7.0 <==> bg.l <= 0.5
  {
    if bg.l > 0.5 then Minima(2.5, 7.0) else Minima(7.0, 2.5)
  }

  /** In the explicit dark and light modes with a background on its own side
      of one half, the strict bound of 7 applies against the anchor that is the
      background, the loose 2.5 against the foreground. */
  lemma StrictBoundAgainstBackground(mode: string, muted0: Hsl, muted1: Hsl, dark: Hsl, light: Hsl,
                                     hexToHsl: string -> Hsl)
    requires IsDarkMode(mode) || IsLightMode(mode)
    requires dark.l <= 0.5 < light.l
    ensures var p := SelectColors(mode, muted0, muted1, dark, light, hexToHsl).value;
      var m := ContrastMinima(p.bg);
      (p.bg == dark ==> m.dark == 7.0 && m.light == 2.5)
      && (p.bg == light ==> m.light == 7.0 && m.dark == 2.5)
  {
  }
}
