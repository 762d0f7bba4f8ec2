/** The per-image body of the driver script and its loop over the image
    paths. The colour analysis itself lives in modules this model does not
    contain; their functions arrive as the fields of `Collaborators`, so the
    model states what the driver does with whatever they return. */
module Extract {
  import opened Colour
  import opened Results
  import opened CommandLine
  import opened PixelFilter
  import opened Anchors
  import opened Palette
  import opened TemplateName

  /** The imported helpers the script calls, as opaque functions. */
  datatype Collaborators = Collaborators(
    clusterCenters: seq<Hsl> -> seq<Hsl>,                  // hhsl_cluster_centers_as_hsl
    findDominant: seq<Hsl> -> seq<Hsl>,                    // find_dominant_by_frequency
    pickBest: (nat, seq<Hsl>, Hsl, Hsl, real, real) -> seq<Hsl>,  // pick_n_best_colors
    clip: (seq<Hsl>, Hsl, Hsl, real, real) -> seq<Hsl>,     // clip_between_boundaries
    complement: seq<Hsl> -> seq<Hsl>,                      // generate_complementary
    hexToHsl: string -> Hsl,                               // hex2rgb followed by rgb2hsl
    toRgb: Hsl -> Rgb,                                     // hsl2rgb
    toHex: Hsl -> string)                                  // hsl2hex

  /** How many base colours the picker is asked for. */
  const BaseColourCount: nat := 8

  /** Everything one image's run produces. */
  datatype Theme = Theme(
    filtered: Filtered,
    dark: Hsl, light: Hsl,
    colours: Pair,
    minima: Minima,
    ansi: seq<Hsl>,
    black: Hsl, brightBlack: Hsl,
    roleColours: map<Role, Hsl>,
    values: map<Key, Value>,
    outputName: string)

  /** The sixteen ANSI colours the helpers produce for ordered anchors. */
  function Expanded(kept: seq<Hsl>, dark: Hsl, light: Hsl, m: Minima, c: Collaborators): seq<Hsl>
  {
    c.complement(c.clip(c.pickBest(BaseColourCount, c.clusterCenters(kept), dark, light, m.dark, m.light),
                        dark, light, m.dark, m.light))
  }

  /** What the script computes for one decoded image under the background
      mode and template path of the command line, stage by stage, with the
      exception that ends it where one is raised. */
  function ImageTheme(pixels: seq<Hsl>, mode: string, template: string, c: Collaborators): (r: Result<Theme>)
    ensures r == Err(NoPixels) <==> |pixels| == 0
    ensures r.Ok? ==> r.value.filtered.pixels == Filter(pixels, LightnessThreshold)
    ensures r.Ok? ==> r.value.dark.l <= r.value.light.l && r.value.outputName == OutputName(template)
  {
    match FilterPixels(pixels)
    case Err(e) => Err(e)
    case Ok(filtered) =>
      var d := c.findDominant(filtered.pixels);
      if |d| < 2 then Err(TooFewAnchors(|d|))
      else
        var m0, m1 := Mute(d[0]), Mute(d[1]);
        var dark := if m0.l <= m1.l then m0 else m1;
        var light := if m0.l <= m1.l then m1 else m0;
        match SelectColors(mode, m0, m1, dark, light, c.hexToHsl)
        case Err(e) => Err(e)
        case Ok(p) => Colourise(filtered, dark, light, p, template, c)
  }

  /** The stages after the background and foreground are chosen: the
      contrast minima, the sixteen ANSI colours, the blacks, the colour of
      every role and the template dictionary. */
  function Colourise(filtered: Filtered, dark: Hsl, light: Hsl, p: Pair, template: string, c: Collaborators)
    : (r: Result<Theme>)
    ensures r.Err? ==> r.error.TooFewAnsiColors? && r.error.found < 16
    ensures r.Ok? ==> && r.value.filtered == filtered && r.value.dark == dark && r.value.light == light
                      && r.value.colours == p && |r.value.ansi| >= 16
    ensures r.Ok? ==> r.value.outputName == OutputName(template)
  {
    var minima := ContrastMinima(p.bg);
    var ansi := Expanded(filtered.pixels, dark, light, minima, c);
    if |ansi| < 16 then Err(TooFewAnsiColors(|ansi|))
    else
      var black := p.bg.(l := BlackLightness(p.bg.l));
      var brightBlack := black.(l := black.l + 0.1);
      var roleColours := RoleColours(Sources(p.bg, p.fg, black, brightBlack, ansi));
      Ok(Theme(filtered, dark, light, p, minima, ansi, black, brightBlack, roleColours,
               Expansion(Roles, roleColours, c.toRgb, c.toHex), OutputName(template)))
  }

  /** Which exception, if any, one image raises; with the corrected hex
      branch of `SelectColors`, nothing else fails. */
  lemma ImageThemeErrors(pixels: seq<Hsl>, mode: string, template: string, c: Collaborators)
    ensures var r := ImageTheme(pixels, mode, template, c);
      var d := c.findDominant(Filter(pixels, LightnessThreshold));
      && (|pixels| == 0 <==> r == Err(NoPixels))
      && (|pixels| > 0 && |d| < 2 ==> r == Err(TooFewAnchors(|d|)))
      && (|pixels| > 0 && |d| >= 2 && mode == "" ==> r == Err(EmptyBackgroundMode))
      && (|pixels| > 0 && |d| >= 2 && mode != "" && r.Err? ==> r.error.TooFewAnsiColors?)
      && (r.Err? && r.error.TooFewAnsiColors? ==> r.error.found < 16)
  {
  }

  /** A theme as the stages of the script relate it to the image: the two
      muted dominant colours ordered dark-to-light, the pair the mode picks,
      the minima for that background, the ANSI colours the helpers return
      for them, the derived blacks, every role's colour and every key of
      the template dictionary. */
  ghost predicate IsThemeOf(t: Theme, pixels: seq<Hsl>, mode: string, template: string, c: Collaborators)
  {
    var kept := Filter(pixels, LightnessThreshold);
    var d := c.findDominant(kept);
    && |d| >= 2
    && PercentRemoved(|pixels|, |kept|).Ok?
    && t.filtered == Filtered(kept, PercentRemoved(|pixels|, |kept|).value)
    && t.dark.l <= t.light.l
    && multiset{t.dark, t.light} == multiset{Mute(d[0]), Mute(d[1])}
    && SelectColors(mode, Mute(d[0]), Mute(d[1]), t.dark, t.light, c.hexToHsl) == Ok(t.colours)
    && t.minima == ContrastMinima(t.colours.bg)
    && t.ansi == Expanded(kept, t.dark, t.light, t.minima, c) && |t.ansi| >= 16
    && t.black == t.colours.bg.(l := BlackLightness(t.colours.bg.l))
    && t.brightBlack == t.black.(l := t.black.l + 0.1)
    && (forall r: Role :: r in t.roleColours)
    && (forall r: Role :: t.roleColours[r] == ColourOf(r, Sources(t.colours.bg, t.colours.fg, t.black, t.brightBlack, t.ansi)))
    && (forall k: Key :: k in t.values)
    && (forall k: Key :: t.values[k] == FieldValue(k.field, c.toRgb(t.roleColours[k.role]), c.toHex(t.roleColours[k.role])))
    && t.outputName == OutputName(template)
  }

  /** Every theme the script produces has that shape. */
  lemma ImageThemeStages(pixels: seq<Hsl>, mode: string, template: string, c: Collaborators)
    ensures ImageTheme(pixels, mode, template, c).Ok? ==> IsThemeOf(ImageTheme(pixels, mode, template, c).value, pixels, mode, template, c)
  {
    RolesComplete();
  }

  /** One iteration of the loop over image paths, from the decoded HSL pixels
      to the template dictionary and the output file name. */
  method ProcessImage(pixels: seq<Hsl>, mode: string, template: string, c: Collaborators) returns (r: Result<Theme>)
    ensures r == ImageTheme(pixels, mode, template, c)
    ensures r.Ok? ==> |r.value.values| == 7 * 22
  {
    var filtered := FilterPixels(pixels);
    if filtered.Err? {
      return Err(filtered.error);
    }
    var kept := filtered.value.pixels;
    var dominants := c.findDominant(kept);
    if |dominants| < 2 {
      return Err(TooFewAnchors(|dominants|));
    }
    var muted := new Hsl[|dominants|](i requires 0 <= i < |dominants| => dominants[i]);
    CapSaturation(muted);
    var dark, light := OrderAnchors(muted[0], muted[1]);
    var chosen := SelectColors(mode, muted[0], muted[1], dark, light, c.hexToHsl);
    if chosen.Err? {
      return Err(chosen.error);
    }
    r := PaintTheme(filtered.value, dark, light, chosen.value, template, c);
  }

  /** The second half of an iteration: from the chosen pair to the template
      dictionary and the output file name. */
  method PaintTheme(filtered: Filtered, dark: Hsl, light: Hsl, chosen: Pair, template: string, c: Collaborators)
    returns (r: Result<Theme>)
    ensures r == Colourise(filtered, dark, light, chosen, template, c)
    ensures r.Ok? ==> |r.value.values| == 7 * 22
  {
    var bg, fg := chosen.bg, chosen.fg;
    var minima := ContrastMinima(bg);
    var ansi := Expanded(filtered.pixels, dark, light, minima, c);
    if |ansi| < 16 {
      return Err(TooFewAnsiColors(|ansi|));
    }
    var black, brightBlack := DeriveBlacks(bg);
    var roleColours := RoleColours(Sources(bg, fg, black, brightBlack, ansi));
    RolesComplete();
    var values := ExpandColors(Roles, roleColours, c.toRgb, c.toHex);
    IsExpansion(values, Roles, roleColours, c.toRgb, c.toHex);
    ghost var expected := Colourise(filtered, dark, light, chosen, template, c);
    assert expected.Ok?;
    assert expected.value.minima == minima;
    assert expected.value.ansi == ansi;
    assert expected.value.black == black;
    assert expected.value.brightBlack == brightBlack;
    assert expected.value.roleColours == roleColours;
    assert expected.value.values == values;
    r := Ok(Theme(filtered, dark, light, chosen, minima, ansi, black, brightBlack,
                  roleColours, values, OutputName(template)));
  }

  /** The images of `paths` processed in order by `image`; the first
      exception ends the run. */
  function Themes(paths: seq<string>, image: string -> Result<Theme>): (r: Result<seq<Theme>>)
    ensures r.Ok? ==> |r.value| == |paths|
    ensures r.Ok? ==> forall i :: 0 <= i < |paths| ==> image(paths[i]) == Ok(r.value[i])
  {
    if paths == [] then Ok([])
    else
      match Themes(paths[..|paths| - 1], image)
      case Err(e) => Err(e)
      case Ok(done) =>
        match image(paths[|paths| - 1])
        case Err(e) => Err(e)
        case Ok(t) => Ok(done + [t])
  }

  /** The run fails exactly when some image raises, and then with the
      exception of the first such image. */
  lemma {:induction false} ThemesFirstError(paths: seq<string>, image: string -> Result<Theme>)
    ensures Themes(paths, image).Err? <==> exists i :: 0 <= i < |paths| && image(paths[i]).Err?
    ensures Themes(paths, image).Err? ==>
      exists i :: 0 <= i < |paths| && image(paths[i]) == Err(Themes(paths, image).error)
                  && (forall j :: 0 <= j < i ==> image(paths[j]).Ok?)
  {
    if paths != [] {
      var front := paths[..|paths| - 1];
      ThemesFirstError(front, image);
      assert forall i :: 0 <= i < |front| ==> front[i] == paths[i];
    }
  }

  /** Once a prefix of the paths raises, the whole run raises the same. */
  lemma {:induction false} ErrorSticks(paths: seq<string>, n: nat, image: string -> Result<Theme>)
    requires n <= |paths| && Themes(paths[..n], image).Err?
    ensures Themes(paths, image) == Themes(paths[..n], image)
  {
    if n < |paths| {
      var front := paths[..|paths| - 1];
      assert front[..n] == paths[..n];
      ErrorSticks(front, n, image);
    } else {
      assert paths[..n] == paths;
    }
  }

  /** One more path: its image's theme is appended, or its exception ends
      the run. */
  lemma ThemesStep(paths: seq<string>, i: nat, image: string -> Result<Theme>)
    requires i < |paths| && Themes(paths[..i], image).Ok?
    ensures image(paths[i]).Err? ==> Themes(paths[..i + 1], image) == Err(image(paths[i]).error)
    ensures image(paths[i]).Ok? ==>
      Themes(paths[..i + 1], image) == Ok(Themes(paths[..i], image).value + [image(paths[i]).value])
  {
    assert paths[..i + 1][..i] == paths[..i];
  }

  /** The loop over the image paths. */
  method ProcessAll(paths: seq<string>, mode: string, template: string, readPixels: string -> seq<Hsl>,
                    c: Collaborators) returns (r: Result<seq<Theme>>)
    ensures r == Themes(paths, p => ImageTheme(readPixels(p), mode, template, c))
  {
    ghost var image := p => ImageTheme(readPixels(p), mode, template, c);
    var themes: seq<Theme> := [];
    assert paths[..0] == [];
    for i := 0 to |paths|
      invariant Themes(paths[..i], image) == Ok(themes)
    {
      var theme := ProcessImage(readPixels(paths[i]), mode, template, c);
      assert image(paths[i]) == theme;
      ThemesStep(paths, i, image);
      if theme.Err? {
        ErrorSticks(paths, i + 1, image);
        return Err(theme.error);
      }
      themes := themes + [theme.value];
    }
    assert paths[..|paths|] == paths;
    r := Ok(themes);
  }

  /** The whole script: parse the command line, then process every image
      under its background mode and template. */
  function Script(argv: seq<string>, realpath: string -> string, readPixels: string -> seq<Hsl>,
                  c: Collaborators): (r: Result<seq<Theme>>)
    ensures Parse(argv, realpath).Err? ==> r == Err(Parse(argv, realpath).error)
    ensures r.Ok? ==> Parse(argv, realpath).Ok? && |r.value| == |Parse(argv, realpath).value.imagePaths|
  {
    match Parse(argv, realpath)
    case Err(e) => Err(e)
    case Ok(inv) =>
      ParsedConfigHasDefaults(argv, realpath);
      var mode, template := inv.config[BackgroundParam], inv.config[TemplateParam];
      Themes(inv.imagePaths, p => ImageTheme(readPixels(p), mode, template, c))
  }

  /** A bad command line stops the script before any image is read; otherwise
      it yields one theme per image path, each of the shape above. */
  lemma ScriptThemes(argv: seq<string>, realpath: string -> string, readPixels: string -> seq<Hsl>,
                     c: Collaborators)
    ensures Parse(argv, realpath).Err? ==> Script(argv, realpath, readPixels, c) == Err(Parse(argv, realpath).error)
    ensures Script(argv, realpath, readPixels, c).Ok? ==>
      var inv := Parse(argv, realpath).value;
      var ts := Script(argv, realpath, readPixels, c).value;
      && Parse(argv, realpath).Ok?
      && BackgroundParam in inv.config && TemplateParam in inv.config
      && |ts| == |inv.imagePaths|
      && forall i :: 0 <= i < |ts| ==>
           IsThemeOf(ts[i], readPixels(inv.imagePaths[i]), inv.config[BackgroundParam], inv.config[TemplateParam], c)
  {
    if Parse(argv, realpath).Ok? {
      ParsedConfigHasDefaults(argv, realpath);
      var inv := Parse(argv, realpath).value;
      var mode, template := inv.config[BackgroundParam], inv.config[TemplateParam];
      forall i | 0 <= i < |inv.imagePaths| {
        ImageThemeStages(readPixels(inv.imagePaths[i]), mode, template, c);
      }
    }
  }

  /** The script's entry point. */
  method Run(argv: seq<string>, realpath: string -> string, readPixels: string -> seq<Hsl>, c: Collaborators)
    returns (r: Result<seq<Theme>>)
    ensures r == Script(argv, realpath, readPixels, c)
  {
    var parsed := ParseArgs(argv, realpath);
    if parsed.Err? {
      return Err(parsed.error);
    }
    ParsedConfigHasDefaults(argv, realpath);
    var config := parsed.value.config;
    r := ProcessAll(parsed.value.imagePaths, config[BackgroundParam], config[TemplateParam], readPixels, c);
  }
}
