# gvcci palette driver, modelled in Dafny

gvcci turns the colours of an image into a 16-colour terminal theme. This
project models its driver script `extract.py`, which runs in five stages:

1. It reads the command line. `--name value` pairs override the defaults
   `--background auto` and `--template ./templates/iterm.itermcolors`. Every
   other argument longer than two characters is an image path, resolved to
   an absolute path.
2. For each image, it drops the near-black pixels (lightness at most 0.05)
   and reports the share it dropped as an integer percentage.
3. It takes the two dominant colours found by the frequency analysis. It caps
   their saturation at 0.2, orders them dark-to-light, and picks the
   background and foreground by the `--background` mode (`dark`, `light`,
   `#hex` or anything else for auto). It then sets the contrast minima
   (7 / 2.5) for the colour picker.
4. It asks the imported helpers for the 16 ANSI colours. It derives a black
   and a bright black from the background, and assigns the 22 named roles
   (`background`, `cursor`, `ansi-red-bright`, ...) to their colours through
   a fixed table.
5. It expands every role into seven template values: three 0..255 channels,
   three 0..1 channels and a hex string. It names the output file `gvcci`
   plus the template's extension.

The modules follow those stages:

- **`colour.dfy`**: `Colour`, the HSL and RGB values, and `Results`, the
  exceptions the script can raise as an `Error`/`Result` pair.
- **`cmdline.dfy`**: `CommandLine`. The argument loop `ParseArgs` is proved
  equal to the token function `Parse`. Lemmas cover which setting wins,
  which defaults survive, when the loop raises, and what becomes of each
  argument at a position the loop reads (`Reached`).
- **`pixels.dfy`**: `PixelFilter`, the lightness filter and the percentage.
- **`anchors.dfy`**: `Anchors`, the saturation cap (in place on an array),
  the dark/light swap, the mode selection and the contrast minima.
- **`palette.dfy`**: `Palette`, the blacks, the role table and the
  dictionary-filling loop. `ExpandColors` loops over the roles, seven
  assignments per role, and its result is proved equal to the map
  `Expansion`.
- **`template.dfy`**: `TemplateName`, Python's `split`/`join` on one
  character and the extension rule for the output file name.
- **`extract.dfy`**: `Extract`, the whole per-image pipeline and the loop
  over the images:
  - `ImageTheme` (with its second half `Colourise`) is the per-image result
    as a function.
  - `ProcessImage` and `PaintTheme` are the methods proved equal to it.
  - `Themes` processes the images in order and stops at the first
    exception.
  - `Script` and `Run` are the whole program.
  - `IsThemeOf` is an independent, declarative description of a finished
    theme. `ImageThemeStages` proves that every theme the pipeline produces
    meets it.

The colour analysis itself lives in modules this model does not contain:
clustering, dominant-colour detection, contrast-constrained picking,
clipping, complement generation and the colour converters. It enters as
the function-valued fields of `Extract.Collaborators`. The model therefore
states what the driver does with whatever those helpers return. Reading an
image file and converting it to HSL is the parameter `readPixels`.
`os.path.realpath` is the parameter `realpath`.

Two behaviours of the code are easy to miss:

- **Contrast minima.** The strict minimum of 7 goes against the anchor on
  the background's own side of one half, and 2.5 against the other
  (lines 121-128). See `Anchors.StrictBoundAgainstBackground`.
- **Empty filter result.** An all-dark image that has pixels is not an
  error. It continues with an empty pixel set and reports 100% (lines
  31-35). Only an image with no pixels at all raises, through the division
  by zero in the percentage. See `PixelFilter.AllDarkRemovesAll` and
  `Extract.ImageThemeErrors`.

The `#hex` background branch indexes past the end of a one-row array
(see "## Findings"). The whole-program functions and methods (`ImageTheme`,
`ProcessImage`, `Script`, `Run`) use the corrected branch
`Anchors.SelectColors`. The branch as written is `Anchors.SelectColorsAsWritten`.

## Model

| member | source | states |
|---|---|---|
| CommandLine.Defaults | extract.py:44-54 | the configuration starts with exactly the two keys `--background` = `auto` and `--template` = `./templates/iterm.itermcolors` |
| CommandLine.Tokens | extract.py:59-68 | what the loop reads from a position on: every setting is keyed by an option and every image is an image-shaped argument |
| CommandLine.Configure | extract.py:51-64 | the configuration after the settings, in order; its keys are exactly the default keys plus the keys that some setting names |
| CommandLine.ImagePaths | extract.py:56-67 | the collected paths are exactly the resolved paths of the image tokens |
| CommandLine.Parse | extract.py:51-68 | the whole command line fails only with `MissingValue` on an option in last position; otherwise both default keys are set and every path is a resolved image-shaped argument |
| CommandLine.ParseArgs | extract.py:56-68 | the `while` loop over `sys.argv[1:]` returns exactly `Parse`: the same configuration, the same resolved image paths in order, and the same error when the last argument is an option |
| CommandLine.ConfigureAppend | extract.py:64 | each further `--name value` pair updates only the key `--name`; an image argument leaves the configuration alone |
| CommandLine.ImagePathsAppend | extract.py:67 | image paths are collected in argument order |
| CommandLine.LastSettingWins | extract.py:64 | a key takes the value of its last occurrence on the command line |
| CommandLine.UnsetKeyKeepsDefault | extract.py:51-64 | a key never set on the command line is in the configuration exactly when it is a default key, and then holds its default value |
| CommandLine.DefaultKeysRemain | extract.py:51-54 | whatever the arguments, both default keys stay present, so the later lookups of `--background` and `--template` cannot fail |
| CommandLine.ParsedConfigHasDefaults | extract.py:51-54 | the same for every successful parse |
| CommandLine.TokensComeFromArgs | extract.py:60-67 | every setting is an argument longer than two characters starting with `--`, followed by the argument after it; every image is an argument longer than two characters not starting with `--` |
| CommandLine.OnlyTrailingOptionFails | extract.py:63-65 | the loop raises only when an option is the last argument, and the error names that option |
| CommandLine.TrailingOptionFails | extract.py:63-65 | an option in last position, with no option before it from the start position on, always raises |
| CommandLine.WithoutOptions | extract.py:60-68 | without options the configuration is the defaults and the image paths are the resolved arguments longer than two characters, in order |
| CommandLine.ReachedSuffix | extract.py:59-68 | from every position the loop reads (`Reached`: 1, then +2 past an option, +1 otherwise), the rest of the command line yields the last tokens of the whole parse |
| CommandLine.ReachedImageIsCollected | extract.py:60-67 | an image-shaped argument at a position the loop reads is collected, its resolved path sitting right before the paths of everything after it |
| CommandLine.ReachedOptionIsSetting | extract.py:60-65 | an option at a position the loop reads has a next argument and yields `Setting(option, next)`, right before the tokens of everything after the pair |
| PixelFilter.Filter | extract.py:32 | the kept pixels are exactly the pixels with lightness above the threshold, and no more than the input |
| PixelFilter.PercentRemoved | extract.py:35 | the percentage raises exactly when the image had no pixels |
| PixelFilter.FilterPixels | extract.py:30-36 | the filter step fails exactly for an empty image; otherwise it keeps the filtered pixels and reports `100 - (100 * after) // before` |
| PixelFilter.FilterAppend | extract.py:32 | the mask works pixel by pixel and keeps the pixel order |
| PixelFilter.FilterIdempotent | extract.py:32 | filtering a filtered image changes nothing |
| PixelFilter.FilterCounts | extract.py:32 | each bright pixel keeps its multiplicity and each dark one is dropped entirely |
| PixelFilter.FilterKeepsBright | extract.py:32 | an image with no pixel at or below the threshold passes unchanged |
| PixelFilter.FilterDropsDark | extract.py:32 | an image with every pixel at or below the threshold is filtered to nothing |
| PixelFilter.AllDarkRemovesAll | extract.py:30-36 | a non-empty all-dark image is filtered to nothing and reported as 100% removed, without an error |
| PixelFilter.PercentBounds | extract.py:35 | the percentage lies in [0, 100]; it is 0 exactly when nothing was dropped, and 100 exactly when fewer than one percent of the pixels survived |
| Anchors.Mute | extract.py:78-83 | the cap keeps hue and lightness, leaves a saturation at most 0.2 alone, and lowers a greater one to exactly 0.2 |
| Anchors.MuteIdempotent | extract.py:80-83 | capping twice is capping once |
| Anchors.MuteKeepsValid | extract.py:80-83 | a colour in range stays in range |
| Anchors.CapSaturation | extract.py:79-83 | the first two dominant colours are capped in place and the rest are untouched |
| Anchors.OrderAnchors | extract.py:90-96 | the swap yields dark no lighter than light, the same two colours, in the original order unless the first is lighter |
| Anchors.ModesPartition | extract.py:98-104 | every non-empty `--background` value takes exactly one branch of `dark`, `light`, `#...` or auto |
| Anchors.SelectColorsAsWritten | extract.py:98-110 | as written, every `#` mode raises at `bg_color[2]`, and every other mode agrees with `SelectColors` |
| Anchors.HexModeFailsAsWritten | extract.py:104-107 | `--background #000000` raises as written and succeeds in the corrected selection |
| Anchors.SelectColors | extract.py:98-110 | dark mode gives (dark, light), light mode gives (light, dark), auto gives the capped colours in detection order; a hex mode gives the decoded colour as background with the light anchor as foreground when that colour's lightness is below one half, the dark anchor otherwise; only the empty mode raises |
| Anchors.ForegroundIsAnAnchor | extract.py:98-110 | outside auto mode the foreground is one of the ordered anchors; dark mode puts the darker anchor behind the text, light mode the lighter one, and a dark hex background gets the light anchor |
| Anchors.AutoIgnoresOrdering | extract.py:87-88 | auto mode does not depend on the swap |
| Anchors.ContrastMinima | extract.py:121-128 | the minima are always 7 and 2.5; 7 is against the light anchor exactly when the background's lightness is above one half |
| Anchors.StrictBoundAgainstBackground | extract.py:121-128 | in dark and light mode, with anchors on both sides of one half, the strict 7 applies against whichever anchor is the background |
| Palette.BlackLightness | extract.py:148-153 | black is moved up out of the very dark (below 0.1) and down otherwise, always by at least 0.1, and lies in [0, 0.4) for a lightness in range |
| Palette.DeriveBlacks | extract.py:146-156 | black is a copy of the background with only its lightness adjusted, and bright black is black 0.1 lighter |
| Palette.BlackBounds | extract.py:146-156 | for a background in range both blacks are in range, keep its hue and saturation, and bright black lies in [0.1, 0.5) |
| Palette.SlotOf | extract.py:158-181 | every role that takes an ANSI colour reads a slot below 16, and never slot 1 |
| Palette.ColourOf | extract.py:158-181 | a role's colour is the background, the foreground, one of the two blacks, or one of the sixteen expanded colours other than position 1 |
| Palette.RoleColours | extract.py:158-181 | every one of the 22 roles has a colour, namely the one its table entry names |
| Palette.RoleIndexInverse | extract.py:158-181 | every role has its own position in the role table |
| Palette.RolesComplete | extract.py:158-181 | the table has exactly 22 distinct roles and includes every role |
| Palette.AnsiPairs | extract.py:167-180 | for each hue from red to white, the normal role reads slot 2·hue and the bright role slot 2·hue + 1 |
| Palette.FixedRoles | extract.py:159-166 | cursor is ANSI red normal (slot 2), selection is slot 0, bold is the foreground, selected text is the background, and the black pair are the derived blacks |
| Palette.UsedPositionsExactly | extract.py:162-180 | the table reads exactly the ANSI slots 0 and 2..15 |
| Palette.FieldValue | extract.py:188-194 | a field holds the hex string exactly for the hex field, a 0..255 channel exactly for the three `-255` fields, and a float otherwise |
| Palette.KeyName | extract.py:188-194 | the key is spelled as role name plus field suffix, and it starts with `ansi-` exactly for the sixteen ANSI roles |
| Palette.KeyNamesDistinct | extract.py:158-194 | two keys spelled alike are the same key, so no assignment of lines 188-194 overwrites another |
| Palette.Expansion | extract.py:183-194 | the dictionary has all seven fields of exactly the listed roles, each holding that role's converted colour |
| Palette.ExpandColors | extract.py:183-194 | the loop over the roles produces keys of exactly the listed roles, with each field's value, seven keys per role |
| Palette.AddRole | extract.py:188-194 | the seven assignments add the seven fields of one new role and keep every other key |
| Palette.IsExpansion | extract.py:183-194 | what the loop fills in is the expansion map |
| Palette.FloatChannels | extract.py:188-193 | each float channel is its 0..255 channel divided by 255, so it lies in [0, 1] for a byte |
| TemplateName.Split | extract.py:197-198 | `split` yields at least one piece and no piece contains the separator |
| TemplateName.FileName | extract.py:197 | the file name contains no `/` |
| TemplateName.JoinSplit | extract.py:197-198 | joining the pieces of a split gives back the string |
| TemplateName.SplitJoin | extract.py:197-198 | splitting a join of separator-free pieces gives back the pieces |
| TemplateName.ConcatSplit | extract.py:201 | gluing the pieces with nothing in between removes every separator |
| TemplateName.FileNameAfterSlash | extract.py:197 | the file name of `dir/name` is `name` |
| TemplateName.TemplateExtension | extract.py:196-201 | the extension is empty exactly when the template's file name has no dot; otherwise it is one dot followed by characters that are neither dots nor slashes |
| TemplateName.OutputName | extract.py:212-213 | the output file name starts with `gvcci`, contains no `/`, and is `gvcci` alone exactly when the template's file name has no dot |
| TemplateName.ExtensionOfName | extract.py:198-201 | for a name `stem.rest` the extension is `.` followed by `rest` with its dots removed |
| TemplateName.NoDotNoExtension | extract.py:199-201 | a name without a dot has an empty extension |
| TemplateName.TwoDotExtension | extract.py:198-201 | a name with two dots yields `.` plus its last two parts run together |
| TemplateName.MultiPartExtension | extract.py:198-201 | `a.tar.gz` yields `.targz` |
| TemplateName.OneDotOutputName | extract.py:196-213 | a template `dir/stem.ext` writes `gvcci.ext` |
| TemplateName.DefaultOutputName | extract.py:196-213 | the default template writes `gvcci.itermcolors` |
| Extract.Expanded | extract.py:130-133 | the sixteen ANSI colours: the picker's eight base colours for the cluster centres, the ordered anchors and the minima, clipped and then complemented |
| Extract.Colourise | extract.py:121-194 | the second half of an image's run fails only with fewer than 16 ANSI colours; otherwise it keeps the pixels, anchors and pair it was given and names the output after the template |
| Extract.ImageTheme | extract.py:70-213 | one image's run, with the corrected hex branch: it raises the division by zero exactly for an image without pixels, and a theme has the filtered pixels, ordered anchors and the template's output name |
| Extract.ImageThemeErrors | extract.py:30-181 | with the corrected hex branch, one image raises a division by zero exactly when it has no pixels, an index error when fewer than two dominant colours come back, another for an empty mode, and otherwise only for fewer than 16 ANSI colours |
| Extract.ImageThemeStages | extract.py:70-213 | every theme produced from an image has ordered capped anchors, the mode's pair, the minima for that background, the helpers' ANSI colours, the derived blacks, every role's table colour, every template key's value and the output name |
| Extract.ProcessImage | extract.py:70-213 | the loop body, with the cap done in place on an array and the corrected hex branch, computes exactly `ImageTheme` and a dictionary of 154 keys |
| Extract.PaintTheme | extract.py:121-194 | the second half of the loop body computes exactly `Colourise` and a dictionary of 154 keys |
| Extract.Themes | extract.py:70-76 | a successful run has one theme per path, the theme of that path's image |
| Extract.ThemesFirstError | extract.py:70-76 | the run fails exactly when some image fails, and then with the error of the first failing image |
| Extract.ErrorSticks | extract.py:70-76 | once an image fails, later images do not change the outcome |
| Extract.ThemesStep | extract.py:70-76 | one more path appends its image's theme or ends the run with its error |
| Extract.ProcessAll | extract.py:70-213 | the `for` loop over the image paths computes exactly `Themes` |
| Extract.ScriptThemes | extract.py:51-76 | a bad command line fails before any image is read; otherwise there is one theme per image path, each of the shape of `IsThemeOf` under the parsed mode and template |
| Extract.Script | extract.py:51-213 | a bad command line ends the script with its error; a successful script yields one theme per image path |
| Extract.Run | extract.py:51-213 | the whole script, with the corrected hex branch, computes exactly `Script` |

## Left out

- Output of every kind is not modelled: the logo, the progress messages, the
  filtered-percentage message and the printed colour table. Neither are the
  HTML preview written to `examples.html` (lines 135-144) and the rendering
  and writing of the template (lines 203-215). The model stops at the
  template dictionary and the output file name. It does not capture that
  every image writes the same file `gvcci` plus extension, so each image
  overwrites the previous one's output.
- Reading the image and converting it to HSL (lines 24-28) is the parameter
  `readPixels`. Resolving paths is the parameter `realpath`.
- The analysis helpers and colour converters are modules this model does
  not contain. They are opaque functions in `Extract.Collaborators`, so no
  property of the colours they return is stated. This includes the contrast
  guarantees of the picker and the exceptions they may raise themselves,
  such as a malformed hex string.
- Extract.ImageThemeErrors: `ImageTheme`, `ProcessImage`, `Script` and `Run`
  use the corrected hex branch `Anchors.SelectColors`. As written, every `#`
  mode raises `HexBackgroundIndex` at line 107 for every image that gets that
  far, so the script as written produces no theme under a `#` mode.
  `Anchors.SelectColorsAsWritten` models that branch as written.
- Extract.ImageThemeErrors: does not model an exception raised by the preview
  builder at line 135. That builder is not part of this model.
- Floating point is modelled as exact reals, so rounding in `rgb / 255` and
  in the lightness arithmetic is not captured.
- A numpy `(1, 3)` colour array is modelled as an `Hsl` value. The dominant
  colours are copied into a fresh array before the cap is written in place.
  The helper's own list is therefore not shown changing, which makes no
  difference because the script never reads that list again.
- The template dictionary is a map keyed by `(role, field)`. Python's
  insertion order is not modelled. The key strings are `Palette.KeyName`,
  and `Palette.KeyNamesDistinct` shows that the map loses nothing by
  keying on `(role, field)` instead.
- The constant `n_colors` (line 18) is never used by the script.

## Findings

| source | as written | input that shows it | evidently intended | confidence | as-written member | corrected member |
|---|---|---|---|---|---|---|
| extract.py:104-110 | the hex branch reshapes the decoded colour to a 1x3 array and compares `bg_color[2]`, which indexes past its single row and raises IndexError | `--background #000000` | compare the decoded colour's lightness `bg_color[0][2]` with 0.5 to choose the foreground | not executed | Anchors.SelectColorsAsWritten (counterexample Anchors.HexModeFailsAsWritten) | Anchors.SelectColors |
