/** The hand-written argument loop of the driver script. Each argument longer
    than two characters is either an option (it starts with `--` and takes the
    next argument as its value) or an image path; shorter arguments are
    skipped. The loop starts at index 1, past the program name. */
module CommandLine {
  import opened Results

  const BackgroundParam := "--background"
  const BackgroundDefault := "auto"
  const TemplateParam := "--template"
  const TemplateDefault := "./templates/iterm.itermcolors"

  /** The configuration before any option is read. */
  function Defaults(): (cfg: map<string, string>)
    ensures cfg.Keys == {BackgroundParam, TemplateParam}
    ensures cfg[BackgroundParam] == BackgroundDefault && cfg[TemplateParam] == TemplateDefault
  {
    map[BackgroundParam := BackgroundDefault, TemplateParam := TemplateDefault]
  }

  predicate IsOption(arg: string) { |arg| > 2 && arg[..2] == "--" }

  predicate IsImageArg(arg: string) { |arg| > 2 && arg[..2] != "--" }

  /** What the loop makes of one (or, for an option, two) arguments. */
  datatype Token = Setting(key: string, value: string) | Image(path: string)

  datatype Invocation = Invocation(config: map<string, string>, imagePaths: seq<string>)

  function Prepend(t: Token, r: Result<seq<Token>>): Result<seq<Token>>
  {
    match r
    case Ok(ts) => Ok([t] + ts)
    case Err(e) => Err(e)
  }

  function Glue(done: seq<Token>, r: Result<seq<Token>>): Result<seq<Token>>
  {
    match r
    case Ok(ts) => Ok(done + ts)
    case Err(e) => Err(e)
  }

  /** The tokens the loop reads from `argv[i..]`: every setting is keyed by an
      option, every image is an image-shaped argument. */
  function Tokens(argv: seq<string>, i: nat): (r: Result<seq<Token>>)
    ensures r.Ok? ==> forall t :: t in r.value ==>
      (t.Setting? ==> IsOption(t.key)) && (t.Image? ==> IsImageArg(t.path))
    decreases |argv| - i
  {
    if i >= |argv| then Ok([])
    else if IsOption(argv[i]) then
      if i + 1 < |argv| then Prepend(Setting(argv[i], argv[i + 1]), Tokens(argv, i + 2))
      else Err(MissingValue(argv[i]))
    else if IsImageArg(argv[i]) then Prepend(Image(argv[i]), Tokens(argv, i + 1))
    else Tokens(argv, i + 1)
  }

  /** The configuration after the settings of `toks`, applied in order: its
      keys are the default keys and the keys of the settings. */
  function Configure(toks: seq<Token>): (cfg: map<string, string>)
    ensures cfg.Keys == Defaults().Keys + set t | t in toks && t.Setting? :: t.key
  {
    if toks == [] then Defaults()
    else
      var cfg := Configure(toks[..|toks| - 1]);
      assert forall t :: t in toks <==> t in toks[..|toks| - 1] || t == toks[|toks| - 1];
      match toks[|toks| - 1]
      case Setting(k, v) => cfg[k := v]
      case Image(_) => cfg
  }

  /** The image paths of `toks`, resolved, in order of appearance: exactly
      the resolved paths of its image tokens. */
  function ImagePaths(toks: seq<Token>, realpath: string -> string): (paths: seq<string>)
    ensures forall p :: p in paths <==> exists t :: t in toks && t.Image? && p == realpath(t.path)
  {
    if toks == [] then []
    else
      var paths := ImagePaths(toks[..|toks| - 1], realpath);
      assert forall t :: t in toks <==> t in toks[..|toks| - 1] || t == toks[|toks| - 1];
      match toks[|toks| - 1]
      case Setting(_, _) => paths
      case Image(p) => paths + [realpath(p)]
  }

  /** What the argument loop leaves behind for the whole command line. It
      fails only on an option in last position; otherwise both default keys
      are set and every path is a resolved image-shaped argument. */
  function Parse(argv: seq<string>, realpath: string -> string): (r: Result<Invocation>)
    ensures r.Err? ==> |argv| > 1 && IsOption(argv[|argv| - 1]) && r.error == MissingValue(argv[|argv| - 1])
    ensures r.Ok? ==> BackgroundParam in r.value.config && TemplateParam in r.value.config
    ensures r.Ok? ==> forall p :: p in r.value.imagePaths ==>
      exists j :: 1 <= j < |argv| && IsImageArg(argv[j]) && p == realpath(argv[j])
  {
    match Tokens(argv, 1)
    case Ok(toks) =>
      TokensComeFromArgs(argv, 1);
      Ok(Invocation(Configure(toks), ImagePaths(toks, realpath)))
    case Err(e) =>
      OnlyTrailingOptionFails(argv, 1);
      Err(e)
  }

  /** The argument loop itself: a counter walks `argv`, an option stores the
      next argument under its own name and skips it. */
  method ParseArgs(argv: seq<string>, realpath: string -> string) returns (r: Result<Invocation>)
    ensures r == Parse(argv, realpath)
  {
    var config := Defaults();
    var imagePaths: seq<string> := [];
    ghost var toks: seq<Token> := [];
    var argId := 1;
    GlueEmpty(Tokens(argv, 1));
    while argId < |argv|
      invariant 1 <= argId && (argId <= |argv| ==> Reached(argv, argId))
      invariant Tokens(argv, 1) == Glue(toks, Tokens(argv, argId))
      invariant config == Configure(toks)
      invariant imagePaths == ImagePaths(toks, realpath)
      decreases |argv| - argId
    {
      var param := argv[argId];
      ReachedStep(argv, argId);
      if |param| > 2 {
        if param[..2] == "--" {
          if argId + 1 >= |argv| {
            assert Tokens(argv, argId) == Err(MissingValue(param));
            return Err(MissingValue(param));
          }
          GluePrepend(toks, Setting(param, argv[argId + 1]), Tokens(argv, argId + 2));
          SettingStep(toks, param, argv[argId + 1], realpath);
          config := config[param := argv[argId + 1]];
          toks := toks + [Setting(param, argv[argId + 1])];
          argId := argId + 1;
        } else {
          GluePrepend(toks, Image(param), Tokens(argv, argId + 1));
          ImageTokenStep(toks, param, realpath);
          imagePaths := imagePaths + [realpath(param)];
          toks := toks + [Image(param)];
        }
      }
      argId := argId + 1;
    }
    assert toks + [] == toks;
    r := Ok(Invocation(config, imagePaths));
  }

  /** A setting token changes only the configuration. */
  lemma SettingStep(toks: seq<Token>, k: string, v: string, realpath: string -> string)
    ensures Configure(toks + [Setting(k, v)]) == Configure(toks)[k := v]
    ensures ImagePaths(toks + [Setting(k, v)], realpath) == ImagePaths(toks, realpath)
  {
    assert (toks + [Setting(k, v)])[..|toks|] == toks;
  }

  /** An image token changes only the list of paths. */
  lemma ImageTokenStep(toks: seq<Token>, p: string, realpath: string -> string)
    ensures Configure(toks + [Image(p)]) == Configure(toks)
    ensures ImagePaths(toks + [Image(p)], realpath) == ImagePaths(toks, realpath) + [realpath(p)]
  {
    assert (toks + [Image(p)])[..|toks|] == toks;
  }

  lemma GluePrepend(done: seq<Token>, t: Token, r: Result<seq<Token>>)
    ensures Glue(done, Prepend(t, r)) == Glue(done + [t], r)
  {
    if r.Ok? { assert done + ([t] + r.value) == (done + [t]) + r.value; }
  }

  lemma GlueEmpty(r: Result<seq<Token>>)
    ensures Glue([], r) == r
  {
    if r.Ok? { assert [] + r.value == r.value; }
  }

  /** The image-shaped arguments of `args`, in order. */
  function ImageArgs(args: seq<string>): seq<string>
  {
    if args == [] then []
    else if IsImageArg(args[0]) then [args[0]] + ImageArgs(args[1..])
    else ImageArgs(args[1..])
  }

  function MapPaths(paths: seq<string>, realpath: string -> string): (r: seq<string>)
    ensures |r| == |paths| && forall k :: 0 <= k < |paths| ==> r[k] == realpath(paths[k])
  {
    seq(|paths|, k requires 0 <= k < |paths| => realpath(paths[k]))
  }

  lemma {:induction false} ConfigureAppend(a: seq<Token>, t: Token)
    ensures Configure(a + [t]) == if t.Setting? then Configure(a)[t.key := t.value] else Configure(a)
  {
    assert (a + [t])[..|a + [t]| - 1] == a;
  }

  lemma {:induction false} ImagePathsAppend(a: seq<Token>, b: seq<Token>, realpath: string -> string)
    ensures ImagePaths(a + b, realpath) == ImagePaths(a, realpath) + ImagePaths(b, realpath)
    decreases |b|
  {
    if b == [] {
      assert a + b == a;
    } else {
      var b' := b[..|b| - 1];
      assert (a + b)[..|a + b| - 1] == a + b';
      assert b[..|b| - 1] == b';
      ImagePathsAppend(a, b', realpath);
    }
  }

  /** The last setting of a key decides its value. */
  lemma {:induction false} LastSettingWins(toks: seq<Token>, i: nat)
    requires i < |toks| && toks[i].Setting?
    requires forall j :: i < j < |toks| && toks[j].Setting? ==> toks[j].key != toks[i].key
    ensures toks[i].key in Configure(toks) && Configure(toks)[toks[i].key] == toks[i].value
  {
    var prefix := toks[..|toks| - 1];
    assert toks == prefix + [toks[|toks| - 1]];
    ConfigureAppend(prefix, toks[|toks| - 1]);
    if i < |toks| - 1 {
      LastSettingWins(prefix, i);
    }
  }

  /** A key that no setting names keeps its default (or stays absent). */
  lemma {:induction false} UnsetKeyKeepsDefault(toks: seq<Token>, k: string)
    requires forall j :: 0 <= j < |toks| && toks[j].Setting? ==> toks[j].key != k
    ensures (k in Configure(toks)) == (k in Defaults())
    ensures k in Defaults() ==> Configure(toks)[k] == Defaults()[k]
  {
    if toks != [] {
      var prefix := toks[..|toks| - 1];
      assert toks == prefix + [toks[|toks| - 1]];
      ConfigureAppend(prefix, toks[|toks| - 1]);
      UnsetKeyKeepsDefault(prefix, k);
    }
  }

  /** Settings only ever add keys: both default keys survive any token list. */
  lemma {:induction false} DefaultKeysRemain(toks: seq<Token>)
    ensures BackgroundParam in Configure(toks) && TemplateParam in Configure(toks)
  {
    if toks != [] {
      var prefix := toks[..|toks| - 1];
      assert toks == prefix + [toks[|toks| - 1]];
      ConfigureAppend(prefix, toks[|toks| - 1]);
      DefaultKeysRemain(prefix);
    }
  }

  /** Every token comes from the command line: a setting from an option and
      the argument right after it, an image from an image-shaped argument. */
  lemma {:induction false} TokensComeFromArgs(argv: seq<string>, i: nat)
    requires Tokens(argv, i).Ok?
    ensures forall t :: t in Tokens(argv, i).value && t.Setting? ==>
      IsOption(t.key) && exists j :: i <= j < |argv| - 1 && argv[j] == t.key && argv[j + 1] == t.value
    ensures forall t :: t in Tokens(argv, i).value && t.Image? ==>
      IsImageArg(t.path) && exists j :: i <= j < |argv| && argv[j] == t.path
    decreases |argv| - i
  {
    if i < |argv| {
      if IsOption(argv[i]) {
        TokensComeFromArgs(argv, i + 2);
      } else {
        TokensComeFromArgs(argv, i + 1);
      }
    }
  }

  /** The only failure: an option in last position, whose value lookup runs
      past the end of the argument list. */
  lemma {:induction false} OnlyTrailingOptionFails(argv: seq<string>, i: nat)
    requires Tokens(argv, i).Err?
    ensures |argv| > 0 && IsOption(argv[|argv| - 1])
    ensures Tokens(argv, i).error == MissingValue(argv[|argv| - 1])
    decreases |argv| - i
  {
    if IsOption(argv[i]) {
      if i + 1 < |argv| {
        OnlyTrailingOptionFails(argv, i + 2);
      }
    } else {
      OnlyTrailingOptionFails(argv, i + 1);
    }
  }

  /** An option in last position that no earlier option swallows as its value
      stops the parse. */
  lemma {:induction false} TrailingOptionFails(argv: seq<string>, i: nat)
    requires 1 <= i < |argv| && IsOption(argv[|argv| - 1])
    requires forall j :: i <= j < |argv| - 1 ==> !IsOption(argv[j])
    ensures Tokens(argv, i) == Err(MissingValue(argv[|argv| - 1]))
    decreases |argv| - i
  {
    if i < |argv| - 1 {
      TrailingOptionFails(argv, i + 1);
    }
  }

  /** Without options, the configuration is the default one and the images
      are the resolved image-shaped arguments in command-line order. */
  lemma {:induction false} WithoutOptions(argv: seq<string>, i: nat, realpath: string -> string)
    requires 1 <= i <= |argv|
    requires forall j :: i <= j < |argv| ==> !IsOption(argv[j])
    ensures Tokens(argv, i).Ok?
    ensures Configure(Tokens(argv, i).value) == Defaults()
    ensures ImagePaths(Tokens(argv, i).value, realpath) == MapPaths(ImageArgs(argv[i..]), realpath)
    decreases |argv| - i
  {
    OnlyImagesFrom(argv, i);
    OnlyImagesKeepDefaults(Tokens(argv, i).value);
    if i == |argv| {
      assert argv[i..] == [];
    } else {
      WithoutOptions(argv, i + 1, realpath);
      assert argv[i..] == [argv[i]] + argv[i + 1..];
      if IsImageArg(argv[i]) {
        ImageStep(argv, i, realpath);
      } else {
        assert ImageArgs(argv[i..]) == ImageArgs(argv[i + 1..]);
      }
    }
  }

  lemma ImageStep(argv: seq<string>, i: nat, realpath: string -> string)
    requires 1 <= i < |argv| && IsImageArg(argv[i]) && Tokens(argv, i + 1).Ok?
    requires ImagePaths(Tokens(argv, i + 1).value, realpath) == MapPaths(ImageArgs(argv[i + 1..]), realpath)
    ensures ImagePaths(Tokens(argv, i).value, realpath) == MapPaths(ImageArgs(argv[i..]), realpath)
  {
    var rest := Tokens(argv, i + 1).value;
    var head := [Image(argv[i])];
    assert Tokens(argv, i).value == head + rest;
    ImagePathsAppend(head, rest, realpath);
    assert head[..0] == [];
    assert ImagePaths(head, realpath) == [realpath(argv[i])];
    assert argv[i..][1..] == argv[i + 1..];
    assert ImageArgs(argv[i..]) == [argv[i]] + ImageArgs(argv[i + 1..]);
  }

  lemma {:induction false} OnlyImagesFrom(argv: seq<string>, i: nat)
    requires forall j :: i <= j < |argv| ==> !IsOption(argv[j])
    ensures Tokens(argv, i).Ok?
    ensures forall t :: t in Tokens(argv, i).value ==> t.Image?
    decreases |argv| - i
  {
    if i < |argv| {
      OnlyImagesFrom(argv, i + 1);
    }
  }

  lemma {:induction false} OnlyImagesKeepDefaults(toks: seq<Token>)
    requires forall t :: t in toks ==> t.Image?
    ensures Configure(toks) == Defaults()
  {
    if toks != [] {
      var prefix := toks[..|toks| - 1];
      assert toks == prefix + [toks[|toks| - 1]];
      assert forall t :: t in prefix ==> t in toks;
      assert toks[|toks| - 1] in toks;
      ConfigureAppend(prefix, toks[|toks| - 1]);
      OnlyImagesKeepDefaults(prefix);
    }
  }

  /** The positions the argument loop reads: it starts at 1, moves on by two
      past an option and by one past anything else. */
  ghost predicate Reached(argv: seq<string>, j: nat)
    decreases j
  {
    || j == 1
    || (j >= 2 && j - 1 < |argv| && !IsOption(argv[j - 1]) && Reached(argv, j - 1))
    || (j >= 3 && j - 2 < |argv| && IsOption(argv[j - 2]) && Reached(argv, j - 2))
  }

  /** The loop's step: past an option by two, past anything else by one. */
  lemma ReachedStep(argv: seq<string>, j: nat)
    requires Reached(argv, j) && j < |argv|
    ensures IsOption(argv[j]) ==> Reached(argv, j + 2)
    ensures !IsOption(argv[j]) ==> Reached(argv, j + 1)
  {
  }

  /** From a position the loop reads, the rest of the command line yields the
      last tokens of the whole parse. */
  lemma {:induction false} ReachedSuffix(argv: seq<string>, j: nat)
    requires Reached(argv, j) && Tokens(argv, 1).Ok?
    ensures Tokens(argv, j).Ok?
    ensures var all, rest := Tokens(argv, 1).value, Tokens(argv, j).value;
      |rest| <= |all| && all[|all| - |rest|..] == rest
    decreases j
  {
    if j != 1 {
      var all := Tokens(argv, 1).value;
      if j >= 2 && j - 1 < |argv| && !IsOption(argv[j - 1]) && Reached(argv, j - 1) {
        ReachedSuffix(argv, j - 1);
        var before := Tokens(argv, j - 1).value;
        if IsImageArg(argv[j - 1]) {
          assert before == [Image(argv[j - 1])] + Tokens(argv, j).value;
          assert all[|all| - |before|..][1..] == all[|all| - |before| + 1..];
        }
      } else {
        ReachedSuffix(argv, j - 2);
        var before := Tokens(argv, j - 2).value;
        assert before == [Setting(argv[j - 2], argv[j - 1])] + Tokens(argv, j).value;
        assert all[|all| - |before|..][1..] == all[|all| - |before| + 1..];
      }
    }
  }

  /** An image-shaped argument at a position the loop reads is collected: its
      resolved path sits right before the paths of everything after it. */
  lemma ReachedImageIsCollected(argv: seq<string>, j: nat, realpath: string -> string)
    requires Parse(argv, realpath).Ok? && Reached(argv, j) && j < |argv| && IsImageArg(argv[j])
    ensures Tokens(argv, j + 1).Ok?
    ensures var paths, later := Parse(argv, realpath).value.imagePaths, ImagePaths(Tokens(argv, j + 1).value, realpath);
      |later| < |paths| && paths[|paths| - |later| - 1] == realpath(argv[j]) && paths[|paths| - |later|..] == later
  {
    ReachedSuffix(argv, j);
    var all, rest := Tokens(argv, 1).value, Tokens(argv, j).value;
    var pre := all[..|all| - |rest|];
    assert all == pre + rest;
    var head, tail := [Image(argv[j])], Tokens(argv, j + 1).value;
    assert rest == head + tail;
    ImagePathsAppend(pre, rest, realpath);
    ImagePathsAppend(head, tail, realpath);
    assert head[..0] == [];
    assert ImagePaths(head, realpath) == [realpath(argv[j])];
  }

  /** An option at a position the loop reads takes the next argument as its
      value: that setting comes right before the tokens of everything after. */
  lemma ReachedOptionIsSetting(argv: seq<string>, j: nat)
    requires Tokens(argv, 1).Ok? && Reached(argv, j) && j < |argv| && IsOption(argv[j])
    ensures j + 1 < |argv| && Tokens(argv, j + 2).Ok?
    ensures var all, later := Tokens(argv, 1).value, Tokens(argv, j + 2).value;
      |later| < |all| && all[|all| - |later| - 1] == Setting(argv[j], argv[j + 1])
      && all[|all| - |later|..] == later
  {
    ReachedSuffix(argv, j);
    var all, rest := Tokens(argv, 1).value, Tokens(argv, j).value;
    assert rest == [Setting(argv[j], argv[j + 1])] + Tokens(argv, j + 2).value;
    assert all[|all| - |rest|..][1..] == all[|all| - |rest| + 1..];
  }

  /** A parsed command line always has both default keys, so the lookups of
      the per-image loop succeed. */
  lemma ParsedConfigHasDefaults(argv: seq<string>, realpath: string -> string)
    requires Parse(argv, realpath).Ok?
    ensures BackgroundParam in Parse(argv, realpath).value.config
    ensures TemplateParam in Parse(argv, realpath).value.config
  {
    DefaultKeysRemain(Tokens(argv, 1).value);
  }
}
