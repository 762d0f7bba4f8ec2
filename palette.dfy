/** The palette assembly of the driver: the synthesised black pair, the fixed
    table from the 22 role names to their colour sources, and the expansion of
    every role into the seven template values (three 0..255 channels, three
    0..1 channels and a hex string). */
module Palette {
  import opened Colour

  /** The lightness of the synthesised black for a background lightness `l`:
      pushed up out of the very dark, down from a midtone, fixed for a light
      background. */
  function BlackLightness(l: real): (b: real)
    ensures l < 0.1 ==> b > l
    ensures l >= 0.1 ==> b < l
    ensures b >= l + 0.1 || b <= l - 0.1
    ensures 0.0 <= l <= 1.0 ==> 0.0 <= b < 0.4
  {
    if l < 0.1 then l + 0.1
    else if l < 0.5 then l - 0.1
    else 0.2
  }

  /** The copy-and-adjust of the source: `black` starts as a copy of the
      background, so the background itself stays as it is. */
  method DeriveBlacks(bg: Hsl) returns (black: Hsl, brightBlack: Hsl)
    ensures black == bg.(l := BlackLightness(bg.l))
    ensures brightBlack == black.(l := black.l + 0.1)
  {
    black := bg;
    if bg.l < 0.1 {
      black := black.(l := black.l + 0.1);
    } else if bg.l < 0.5 {
      black := black.(l := black.l - 0.1);
    } else {
      black := black.(l := 0.2);
    }
    brightBlack := black;
    brightBlack := brightBlack.(l := brightBlack.l + 0.1);
  }

  /** For a background in range, both blacks are valid colours with the
      background's hue and saturation: black lies in [0, 0.4) and bright
      black in [0.1, 0.5), one tenth lighter. */
  lemma BlackBounds(bg: Hsl)
    requires ValidHsl(bg)
    ensures var black := bg.(l := BlackLightness(bg.l));
      var bright := black.(l := black.l + 0.1);
      && ValidHsl(black) && ValidHsl(bright)
      && black.h == bg.h && black.s == bg.s
      && 0.0 <= black.l < 0.4 && 0.1 <= bright.l < 0.5
  {
  }

  /** The eight colour names of the ANSI table, in slot order. */
  datatype Hue = Black | Red | Green | Yellow | Blue | Magenta | Cyan | White

  function HueIndex(h: Hue): nat
  {
    match h
    case Black => 0 case Red => 1 case Green => 2 case Yellow => 3
    case Blue => 4 case Magenta => 5 case Cyan => 6 case White => 7
  }

  function HueName(h: Hue): string
  {
    match h
    case Black => "black" case Red => "red" case Green => "green" case Yellow => "yellow"
    case Blue => "blue" case Magenta => "magenta" case Cyan => "cyan" case White => "white"
  }

  /** The 22 roles of a terminal theme. */
  datatype Role =
    | Background | Foreground | Bold | Cursor | Selection | SelectedText
    | Ansi(hue: Hue, bright: bool)

  function RoleName(r: Role): string
  {
    match r
    case Background => "background"
    case Foreground => "foreground"
    case Bold => "bold"
    case Cursor => "cursor"
    case Selection => "selection"
    case SelectedText => "selected-text"
    case Ansi(h, bright) => "ansi-" + HueName(h) + (if bright then "-bright" else "-normal")
  }

  /** The roles in the order the table lists them. */
  const Roles: seq<Role> := [
    Background, Foreground, Bold, Cursor, Selection, SelectedText,
    Ansi(Black, false), Ansi(Black, true),
    Ansi(Red, false), Ansi(Red, true),
    Ansi(Green, false), Ansi(Green, true),
    Ansi(Yellow, false), Ansi(Yellow, true),
    Ansi(Blue, false), Ansi(Blue, true),
    Ansi(Magenta, false), Ansi(Magenta, true),
    Ansi(Cyan, false), Ansi(Cyan, true),
    Ansi(White, false), Ansi(White, true)
  ]

  /** Where a role takes its colour from: one of the four derived colours, or
      a position of the sixteen expanded ANSI colours. */
  datatype Slot = BgSlot | FgSlot | BlackSlot | BrightBlackSlot | AnsiSlot(index: nat)

  /** The role table of the source, entry by entry. Position 1 of the
      expanded colours is not used by any role. */
  function SlotOf(r: Role): (s: Slot)
    ensures s.AnsiSlot? ==> s.index < 16 && s.index != 1
  {
    match r
    case Background => BgSlot
    case Foreground => FgSlot
    case Bold => FgSlot
    case Cursor => AnsiSlot(2)
    case Selection => AnsiSlot(0)
    case SelectedText => BgSlot
    case Ansi(Black, false) => BlackSlot
    case Ansi(Black, true) => BrightBlackSlot
    case Ansi(Red, false) => AnsiSlot(2)
    case Ansi(Red, true) => AnsiSlot(3)
    case Ansi(Green, false) => AnsiSlot(4)
    case Ansi(Green, true) => AnsiSlot(5)
    case Ansi(Yellow, false) => AnsiSlot(6)
    case Ansi(Yellow, true) => AnsiSlot(7)
    case Ansi(Blue, false) => AnsiSlot(8)
    case Ansi(Blue, true) => AnsiSlot(9)
    case Ansi(Magenta, false) => AnsiSlot(10)
    case Ansi(Magenta, true) => AnsiSlot(11)
    case Ansi(Cyan, false) => AnsiSlot(12)
    case Ansi(Cyan, true) => AnsiSlot(13)
    case Ansi(White, false) => AnsiSlot(14)
    case Ansi(White, true) => AnsiSlot(15)
  }

  /** The colours a role can be drawn from. */
  datatype Sources = Sources(bg: Hsl, fg: Hsl, black: Hsl, brightBlack: Hsl, ansi: seq<Hsl>)

  /** The colour the table gives a role: one of the four derived colours or
      one of the sixteen expanded colours other than position 1. */
  function ColourOf(r: Role, src: Sources): (col: Hsl)
    requires |src.ansi| >= 16
    ensures || col in {src.bg, src.fg, src.black, src.brightBlack}
            || exists k :: 0 <= k < 16 && k != 1 && col == src.ansi[k]
  {
    match SlotOf(r)
    case BgSlot => src.bg
    case FgSlot => src.fg
    case BlackSlot => src.black
    case BrightBlackSlot => src.brightBlack
    case AnsiSlot(k) => src.ansi[k]
  }

  /** The role-to-colour dictionary; it has an entry for every role. */
  function RoleColours(src: Sources): (m: map<Role, Hsl>)
    requires |src.ansi| >= 16
    ensures forall r: Role :: r in m && m[r] == ColourOf(r, src)
  {
    RolesComplete();
    map r | r in Roles :: ColourOf(r, src)
  }

  /** The position of a role in the table. */
  function RoleIndex(r: Role): nat
  {
    match r
    case Background => 0 case Foreground => 1 case Bold => 2
    case Cursor => 3 case Selection => 4 case SelectedText => 5
    case Ansi(h, bright) => 6 + 2 * HueIndex(h) + if bright then 1 else 0
  }

  lemma {:induction false} RoleIndexInverse(r: Role)
    ensures RoleIndex(r) < |Roles| && Roles[RoleIndex(r)] == r
  {
    if r.Ansi? {
      match r.hue
      case Black => case Red => case Green => case Yellow =>
      case Blue => case Magenta => case Cyan => case White =>
    }
  }

  /** The table lists each of the 22 roles exactly once. */
  lemma RolesComplete()
    ensures |Roles| == 22
    ensures forall r: Role :: r in Roles
    ensures forall i, j :: 0 <= i < j < |Roles| ==> Roles[i] != Roles[j]
  {
    forall r: Role ensures r in Roles {
      RoleIndexInverse(r);
    }
    assert forall i :: 0 <= i < |Roles| ==> RoleIndex(Roles[i]) == i;
  }

  /** The colour pairs: for every hue but black, the normal role takes
      position 2k of the expanded colours and the bright role 2k + 1. */
  lemma AnsiPairs(h: Hue, bright: bool)
    requires h != Black
    ensures SlotOf(Ansi(h, bright)) == AnsiSlot(2 * HueIndex(h) + if bright then 1 else 0)
  {
  }

  /** The fixed roles: cursor is red-normal's colour, selection is position 0,
      bold repeats the foreground and selected text the background. */
  lemma FixedRoles(src: Sources)
    requires |src.ansi| >= 16
    ensures ColourOf(Cursor, src) == src.ansi[2] == ColourOf(Ansi(Red, false), src)
    ensures ColourOf(Selection, src) == src.ansi[0]
    ensures ColourOf(Bold, src) == src.fg == ColourOf(Foreground, src)
    ensures ColourOf(SelectedText, src) == src.bg == ColourOf(Background, src)
    ensures ColourOf(Ansi(Black, false), src) == src.black
    ensures ColourOf(Ansi(Black, true), src) == src.brightBlack
  {
  }

  /** The expanded positions some role of the table reads. */
  function UsedPositions(): set<nat>
  {
    set r | r in Roles && SlotOf(r).AnsiSlot? :: SlotOf(r).index
  }

  /** The table reads positions 0 and 2 through 15 and never position 1. */
  lemma UsedPositionsExactly()
    ensures forall k: int :: k in UsedPositions() <==> 0 <= k < 16 && k != 1
  {
    forall k: int | 0 <= k < 16 && k != 1 ensures k in UsedPositions() {
      var r := if k == 0 then Roles[4] else Roles[6 + k];
      if k > 0 {
        assert r == Ansi(HueOfIndex(k / 2), k % 2 == 1);
      }
      assert r in Roles && SlotOf(r) == AnsiSlot(k);
    }
    forall k: int | k in UsedPositions() ensures 0 <= k < 16 && k != 1 {
      var r :| r in Roles && SlotOf(r).AnsiSlot? && SlotOf(r).index == k;
    }
  }

  function HueOfIndex(k: nat): (h: Hue)
    requires 1 <= k <= 7
    ensures HueIndex(h) == k
  {
    match k
    case 1 => Red case 2 => Green case 3 => Yellow case 4 => Blue
    case 5 => Magenta case 6 => Cyan case 7 => White
  }

  /** The seven values each role contributes to the template. */
  datatype Field = Red255 | Green255 | Blue255 | RedFloat | GreenFloat | BlueFloat | Hex

  function FieldSuffix(f: Field): string
  {
    match f
    case Red255 => "-red-255"
    case Green255 => "-green-255"
    case Blue255 => "-blue-255"
    case RedFloat => "-red-float"
    case GreenFloat => "-green-float"
    case BlueFloat => "-blue-float"
    case Hex => "-hex"
  }

  /** A key of the template dictionary, as role and field. */
  datatype Key = Key(role: Role, field: Field)

  /** The key as the template spells it, such as `ansi-red-normal-hex`; the
      keys of the sixteen ANSI roles are exactly the ones starting `ansi-`. */
  function KeyName(k: Key): (name: string)
    ensures |name| >= 8 && (name[..5] == "ansi-" <==> k.role.Ansi?)
  {
    var role, suffix := RoleName(k.role), FieldSuffix(k.field);
    RoleNameStart(k.role);
    assert |suffix| >= 4;
    assert (role + suffix)[0] == role[0];
    if k.role.Ansi? then
      assert (role + suffix)[..5] == role[..5];
      role + suffix
    else
      role + suffix
  }

  /** Exactly the ANSI roles' names start with `ansi-`; the others start with
      another letter than `a`. */
  lemma RoleNameStart(r: Role)
    ensures |RoleName(r)| >= 4
    ensures r.Ansi? ==> |RoleName(r)| >= 5 && RoleName(r)[..5] == "ansi-"
    ensures !r.Ansi? ==> RoleName(r)[0] != 'a'
  {
  }

  /** No two keys are spelled alike, so none of the assignments of the
      expansion overwrites another. */
  lemma KeyNamesDistinct(a: Key, b: Key)
    requires KeyName(a) == KeyName(b)
    ensures a == b
  {
    SuffixDetermines(RoleName(a.role), RoleName(b.role), a.field, b.field);
    RoleNamesDistinct(a.role, b.role);
  }

  lemma SuffixDetermines(x: string, y: string, f: Field, g: Field)
    requires x + FieldSuffix(f) == y + FieldSuffix(g)
    ensures f == g && x == y
  {
    var s, u, v := x + FieldSuffix(f), FieldSuffix(f), FieldSuffix(g);
    assert s[|s| - |u|..] == u && s[|s| - |v|..] == v;
    SuffixesApart(f, g);
    SuffixesApart(g, f);
    assert x == s[..|s| - |u|] == y;
  }

  /** No field's suffix ends another field's suffix. */
  lemma SuffixesApart(f: Field, g: Field)
    ensures var u, v := FieldSuffix(f), FieldSuffix(g);
      (|u| <= |v| && v[|v| - |u|..] == u) ==> f == g
  {
  }

  lemma RoleNamesDistinct(a: Role, b: Role)
    requires RoleName(a) == RoleName(b)
    ensures a == b
  {
    var n := RoleName(a);
    if a.Ansi? && b.Ansi? {
      assert HueName(a.hue) == n[5..|n| - 7] == HueName(b.hue);
      HueNamesDistinct(a.hue, b.hue);
      assert n[|n| - 7..] == (if a.bright then "-bright" else "-normal");
      assert n[|n| - 7..] == (if b.bright then "-bright" else "-normal");
    } else {
      assert (n[0] == 'a') == a.Ansi? == b.Ansi?;
    }
  }

  lemma HueNamesDistinct(h: Hue, k: Hue)
    requires HueName(h) == HueName(k)
    ensures h == k
  {
  }

  datatype Value = Int(n: int) | Float(x: real) | Text(s: string)

  /** The value of one field for a colour converted to `rgb` and `hex`; the
      float channels are the 0..255 channels divided by 255. */
  function FieldValue(f: Field, rgb: Rgb, hex: string): (v: Value)
    ensures v.Text? <==> f == Hex
    ensures v.Text? ==> v.s == hex
    ensures v.Int? <==> f == Red255 || f == Green255 || f == Blue255
    ensures v.Int? ==> v.n == rgb.r || v.n == rgb.g || v.n == rgb.b
  {
    match f
    case Red255 => Int(rgb.r)
    case Green255 => Int(rgb.g)
    case Blue255 => Int(rgb.b)
    case RedFloat => Float(rgb.r as real / 255.0)
    case GreenFloat => Float(rgb.g as real / 255.0)
    case BlueFloat => Float(rgb.b as real / 255.0)
    case Hex => Text(hex)
  }

  /** The fields in the order the script assigns them. */
  const Fields: seq<Field> := [Red255, Green255, Blue255, RedFloat, GreenFloat, BlueFloat, Hex]

  lemma FieldsComplete()
    ensures forall f: Field :: f in Fields
  {
    forall f: Field ensures f in Fields {
      match f
      case Red255 => case Green255 => case Blue255 => case RedFloat =>
      case GreenFloat => case BlueFloat => case Hex =>
    }
  }

  /** The template dictionary for `roles`: all seven fields of every role,
      each holding that role's colour converted to RGB or to hex. */
  function Expansion(roles: seq<Role>, hsl: map<Role, Hsl>, toRgb: Hsl -> Rgb, toHex: Hsl -> string)
    : (m: map<Key, Value>)
    requires forall r :: r in roles ==> r in hsl
    ensures forall k: Key :: k in m <==> k.role in roles
    ensures forall k :: k in m ==> m[k] == FieldValue(k.field, toRgb(hsl[k.role]), toHex(hsl[k.role]))
  {
    FieldsComplete();
    map k | k in (set r, f | r in roles && f in Fields :: Key(r, f)) ::
      FieldValue(k.field, toRgb(hsl[k.role]), toHex(hsl[k.role]))
  }

  /** The loop that fills the template dictionary, with one conversion to
      RGB and one to hex per role. */
  method ExpandColors(roles: seq<Role>, hsl: map<Role, Hsl>, toRgb: Hsl -> Rgb, toHex: Hsl -> string)
    returns (colors: map<Key, Value>)
    requires forall i, j :: 0 <= i < j < |roles| ==> roles[i] != roles[j]
    requires forall r :: r in roles ==> r in hsl
    ensures forall k :: k in colors <==> k.role in roles
    ensures forall k :: k in colors ==> colors[k] == FieldValue(k.field, toRgb(hsl[k.role]), toHex(hsl[k.role]))
    ensures |colors| == 7 * |roles|
  {
    colors := map[];
    for i := 0 to |roles|
      invariant forall k :: k in colors <==> k.role in roles[..i]
      invariant forall k :: k in colors ==> colors[k] == FieldValue(k.field, toRgb(hsl[k.role]), toHex(hsl[k.role]))
      invariant |colors| == 7 * i
    {
      var name := roles[i];
      NotBefore(roles, i);
      var rgb := toRgb(hsl[name]);
      var hex := toHex(hsl[name]);
      colors := AddRole(colors, name, rgb, hex);
      PrefixStep(roles, i);
    }
    assert roles[..|roles|] == roles;
  }

  lemma NotBefore<T>(s: seq<T>, i: nat)
    requires forall a, b :: 0 <= a < b < |s| ==> s[a] != s[b]
    requires i < |s|
    ensures s[i] !in s[..i]
  {
  }

  lemma PrefixStep<T>(s: seq<T>, i: nat)
    requires i < |s|
    ensures s[..i + 1] == s[..i] + [s[i]]
  {
  }

  /** A map with the keys and values of the expansion is the expansion. */
  lemma IsExpansion(colors: map<Key, Value>, roles: seq<Role>, hsl: map<Role, Hsl>, toRgb: Hsl -> Rgb,
                    toHex: Hsl -> string)
    requires forall r :: r in roles ==> r in hsl
    requires forall k :: k in colors <==> k.role in roles
    requires forall k :: k in colors ==> colors[k] == FieldValue(k.field, toRgb(hsl[k.role]), toHex(hsl[k.role]))
    ensures colors == Expansion(roles, hsl, toRgb, toHex)
  {
    var m := Expansion(roles, hsl, toRgb, toHex);
    assert forall k :: k in colors <==> k in m;
  }

  /** The seven assignments for one role; the role had no keys before. */
  method AddRole(colors: map<Key, Value>, name: Role, rgb: Rgb, hex: string) returns (out: map<Key, Value>)
    requires forall f: Field :: Key(name, f) !in colors
    ensures forall k :: k in out <==> k in colors || k.role == name
    ensures forall k :: k in out ==> out[k] == if k.role == name then FieldValue(k.field, rgb, hex) else colors[k]
    ensures |out| == |colors| + 7
  {
    out := colors;
    assert Key(name, Red255) !in out;
    out := out[Key(name, Red255) := Int(rgb.r)];
    assert Key(name, Green255) !in out;
    out := out[Key(name, Green255) := Int(rgb.g)];
    assert Key(name, Blue255) !in out;
    out := out[Key(name, Blue255) := Int(rgb.b)];
    assert Key(name, RedFloat) !in out;
    out := out[Key(name, RedFloat) := Float(rgb.r as real / 255.0)];
    assert Key(name, GreenFloat) !in out;
    out := out[Key(name, GreenFloat) := Float(rgb.g as real / 255.0)];
    assert Key(name, BlueFloat) !in out;
    out := out[Key(name, BlueFloat) := Float(rgb.b as real / 255.0)];
    assert Key(name, Hex) !in out;
    out := out[Key(name, Hex) := Text(hex)];
    forall f: Field ensures Key(name, f) in out && out[Key(name, f)] == FieldValue(f, rgb, hex) {
      match f
      case Red255 => case Green255 => case Blue255 => case RedFloat =>
      case GreenFloat => case BlueFloat => case Hex =>
    }
    forall k: Key | k.role == name ensures k in out && out[k] == FieldValue(k.field, rgb, hex) {
      assert k == Key(name, k.field);
    }
  }

  /** A float channel scaled back by 255 is its 0..255 channel, and lies in
      [0, 1] when that channel is a byte. */
  lemma FloatChannels(rgb: Rgb, hex: string)
    ensures FieldValue(RedFloat, rgb, hex).x * 255.0 == FieldValue(Red255, rgb, hex).n as real
    ensures FieldValue(GreenFloat, rgb, hex).x * 255.0 == FieldValue(Green255, rgb, hex).n as real
    ensures FieldValue(BlueFloat, rgb, hex).x * 255.0 == FieldValue(Blue255, rgb, hex).n as real
    ensures 0 <= rgb.r <= 255 ==> 0.0 <= FieldValue(RedFloat, rgb, hex).x <= 1.0
    ensures 0 <= rgb.g <= 255 ==> 0.0 <= FieldValue(GreenFloat, rgb, hex).x <= 1.0
    ensures 0 <= rgb.b <= 255 ==> 0.0 <= FieldValue(BlueFloat, rgb, hex).x <= 1.0
  {
  }
}
