/** The name of the output file: the template's extension, taken from the
    last `/`-separated component of the template path, appended to the fixed
    profile name `gvcci`. */
module TemplateName {

  /** The fixed profile name of the output file. */
  const ImageName := "gvcci"

  /** Python's `str.split(sep)` for a one-character separator: the pieces
      between separators, empty ones included. */
  function Split(s: string, sep: char): (parts: seq<string>)
    ensures |parts| >= 1
    ensures forall p :: p in parts ==> sep !in p
  {
    if |s| == 0 then [""]
    else
      var rest := Split(s[1..], sep);
      if s[0] == sep then [""] + rest
      else [[s[0]] + rest[0]] + rest[1..]
  }

  /** Python's `sep.join(parts)`. */
  function Join(parts: seq<string>, sep: char): string
    requires |parts| >= 1
  {
    if |parts| == 1 then parts[0]
    else parts[0] + [sep] + Join(parts[1..], sep)
  }

  /** Python's `"".join(parts)`. */
  function Concat(parts: seq<string>): string
  {
    if parts == [] then "" else parts[0] + Concat(parts[1..])
  }

  /** The string with every occurrence of `c` removed. */
  function Without(s: string, c: char): (r: string)
    ensures c !in r
  {
    if s == [] then [] else (if s[0] == c then [] else [s[0]]) + Without(s[1..], c)
  }

  function Last(parts: seq<string>): string
    requires |parts| >= 1
  {
    parts[|parts| - 1]
  }

  /** The file-name part of a path. */
  function FileName(path: string): (name: string)
    ensures '/' !in name
  {
    Last(Split(path, '/'))
  }

  /** `"." + "".join(parts[1:])` when the name has at least two dot-separated
      parts, the empty string otherwise. The extension is empty exactly when
      the file name has no dot; otherwise it is one dot followed by
      characters that are neither dots nor slashes. */
  function TemplateExtension(path: string): (ext: string)
    ensures ext == "" <==> '.' !in FileName(path)
    ensures ext != "" ==> ext[0] == '.' && '.' !in ext[1..] && '/' !in ext
  {
    var name := FileName(path);
    var parts := Split(name, '.');
    if '.' !in name then
      SplitNoSeparator(name, '.');
      ""
    else
      JoinSplit(name, '.');
      assert |parts| > 1;
      SplitChars(name, '.');
      ConcatChars(parts[1..]);
      assert forall p :: p in parts[1..] ==> p in parts;
      "." + Concat(parts[1..])
  }

  /** Every character of a piece of a split comes from the string. */
  lemma {:induction false} SplitChars(s: string, sep: char)
    ensures forall p, ch :: p in Split(s, sep) && ch in p ==> ch in s
  {
    if |s| > 0 {
      SplitChars(s[1..], sep);
      var rest := Split(s[1..], sep);
      assert forall p :: p in rest[1..] ==> p in rest;
    }
  }

  /** Every character of a concatenation comes from one of its pieces. */
  lemma {:induction false} ConcatChars(parts: seq<string>)
    ensures forall ch :: ch in Concat(parts) ==> exists p :: p in parts && ch in p
  {
    if parts != [] {
      ConcatChars(parts[1..]);
      assert forall p :: p in parts[1..] ==> p in parts;
    }
  }

  /** The name the rendered template is written to: `gvcci` and the
      extension, a plain file name in the working directory, and `gvcci`
      alone exactly when the template's file name has no dot. */
  function OutputName(templatePath: string): (name: string)
    ensures |name| >= |ImageName| && name[..|ImageName|] == ImageName
    ensures '/' !in name
    ensures name == ImageName <==> '.' !in FileName(templatePath)
  {
    ImageName + TemplateExtension(templatePath)
  }

  /** Joining the pieces of a split gives back the string. */
  lemma {:induction false} JoinSplit(s: string, sep: char)
    ensures Join(Split(s, sep), sep) == s
  {
    if |s| > 0 {
      JoinSplit(s[1..], sep);
      var rest := Split(s[1..], sep);
      if s[0] == sep {
        assert ([""] + rest)[1..] == rest;
      } else {
        var parts := [[s[0]] + rest[0]] + rest[1..];
        if |rest| > 1 {
          assert parts[1..] == rest[1..];
          assert Join(rest, sep) == rest[0] + [sep] + Join(rest[1..], sep);
        }
      }
    }
  }

  /** Splitting a join of separator-free pieces gives back the pieces. */
  lemma {:induction false} SplitJoin(parts: seq<string>, sep: char)
    requires |parts| >= 1
    requires forall p :: p in parts ==> sep !in p
    ensures Split(Join(parts, sep), sep) == parts
  {
    if |parts| == 1 {
      SplitNoSeparator(parts[0], sep);
    } else {
      assert forall p :: p in parts[1..] ==> p in parts;
      SplitJoin(parts[1..], sep);
      SplitAfter(parts[0], Join(parts[1..], sep), sep);
      assert parts == [parts[0]] + parts[1..];
    }
  }

  /** A string without the separator splits into itself alone. */
  lemma {:induction false} SplitNoSeparator(s: string, sep: char)
    requires sep !in s
    ensures Split(s, sep) == [s]
  {
    if |s| > 0 {
      SplitNoSeparator(s[1..], sep);
      assert [s[0]] + s[1..] == s;
    }
  }

  /** The first separator ends the first piece. */
  lemma {:induction false} SplitAfter(a: string, b: string, sep: char)
    requires sep !in a
    ensures Split(a + [sep] + b, sep) == [a] + Split(b, sep)
  {
    if |a| == 0 {
      assert a + [sep] + b == [sep] + b;
      assert ([sep] + b)[1..] == b;
    } else {
      var s := a + [sep] + b;
      assert s[1..] == a[1..] + [sep] + b;
      SplitAfter(a[1..], b, sep);
      assert [a[0]] + a[1..] == a;
    }
  }

  lemma {:induction false} JoinAppend(parts: seq<string>, p: string, sep: char)
    requires |parts| >= 1
    ensures Join(parts + [p], sep) == Join(parts, sep) + [sep] + p
  {
    if |parts| > 1 {
      assert (parts + [p])[1..] == parts[1..] + [p];
      JoinAppend(parts[1..], p, sep);
    }
  }

  /** Gluing the pieces with nothing in between removes the separators. */
  lemma {:induction false} ConcatSplit(s: string, sep: char)
    ensures Concat(Split(s, sep)) == Without(s, sep)
  {
    if |s| > 0 {
      ConcatSplit(s[1..], sep);
      var rest := Split(s[1..], sep);
      if s[0] != sep {
        assert Concat(rest) == rest[0] + Concat(rest[1..]);
      }
    }
  }

  /** The file name of `dir/name` is `name`. */
  lemma FileNameAfterSlash(dir: string, name: string)
    requires '/' !in name
    ensures FileName(dir + "/" + name) == name
  {
    var parts := Split(dir, '/');
    JoinSplit(dir, '/');
    JoinAppend(parts, name, '/');
    SplitJoin(parts + [name], '/');
  }

  /** The extension is everything after the first dot with the remaining
      dots dropped, behind one leading dot; a name without a dot has none. */
  lemma ExtensionOfName(path: string, stem: string, rest: string)
    requires '.' !in stem && FileName(path) == stem + "." + rest
    ensures TemplateExtension(path) == "." + Without(rest, '.')
  {
    SplitAfter(stem, rest, '.');
    assert Split(FileName(path), '.')[1..] == Split(rest, '.');
    ConcatSplit(rest, '.');
  }

  lemma NoDotNoExtension(path: string)
    requires '.' !in FileName(path)
    ensures TemplateExtension(path) == ""
  {
    SplitNoSeparator(FileName(path), '.');
  }

  /** A two-dot name: the extension joins the two trailing parts. */
  lemma TwoDotExtension(stem: string, mid: string, last: string)
    requires '/' !in stem + "." + mid + "." + last
    requires '.' !in stem && '.' !in mid && '.' !in last
    ensures TemplateExtension(stem + "." + mid + "." + last) == "." + mid + last
  {
    var path := stem + "." + mid + "." + last;
    SplitNoSeparator(path, '/');
    assert path == stem + "." + (mid + "." + last);
    ExtensionOfName(path, stem, mid + "." + last);
    WithoutDots(mid, last);
  }

  /** So `a.tar.gz` gives `.targz`. */
  lemma MultiPartExtension(path: string)
    requires path == "a.tar.gz"
    ensures TemplateExtension(path) == ".targz"
  {
    assert path == "a" + "." + "tar" + "." + "gz";
    TwoDotExtension("a", "tar", "gz");
  }

  /** A one-dot name keeps its extension as is. */
  lemma OneDotOutputName(dir: string, stem: string, ext: string)
    requires '/' !in stem + "." + ext
    requires '.' !in stem && '.' !in ext
    ensures OutputName(dir + "/" + stem + "." + ext) == ImageName + "." + ext
  {
    var name := stem + "." + ext;
    assert dir + "/" + stem + "." + ext == dir + "/" + name;
    FileNameAfterSlash(dir, name);
    ExtensionOfName(dir + "/" + name, stem, ext);
    WithoutNothing(ext, '.');
  }

  /** So the default template writes `gvcci.itermcolors`. */
  lemma DefaultOutputName(path: string)
    requires path == "./templates/iterm.itermcolors"
    ensures OutputName(path) == "gvcci.itermcolors"
  {
    DefaultNoSeparators();
    OneDotOutputName("./templates", "iterm", "itermcolors");
    DefaultPieces(path);
  }

  lemma DefaultPieces(path: string)
    requires path == "./templates/iterm.itermcolors"
    ensures path == "./templates" + "/" + "iterm" + "." + "itermcolors"
  {
  }

  lemma DefaultNoSeparators()
    ensures '/' !in "iterm" + "." + "itermcolors"
    ensures '.' !in "iterm" && '.' !in "itermcolors"
  {
  }

  lemma {:induction false} WithoutNothing(s: string, c: char)
    requires c !in s
    ensures Without(s, c) == s
  {
    if s != [] {
      WithoutNothing(s[1..], c);
      assert [s[0]] + s[1..] == s;
    }
  }

  lemma WithoutDots(a: string, b: string)
    requires '.' !in a && '.' !in b
    ensures Without(a + "." + b, '.') == a + b
  {
    WithoutAppend(a + ".", b, '.');
    WithoutAppend(a, ".", '.');
    WithoutNothing(a, '.');
    WithoutNothing(b, '.');
    assert Without(".", '.') == [] by {
      assert "."[1..] == [];
    }
    assert Without(a + ".", '.') == a by {
      assert a + [] == a;
    }
  }

  lemma {:induction false} WithoutAppend(a: string, b: string, c: char)
    ensures Without(a + b, c) == Without(a, c) + Without(b, c)
  {
    if a == [] {
      assert a + b == b;
    } else {
      var ab := a + b;
      assert ab[0] == a[0] && ab[1..] == a[1..] + b;
      WithoutAppend(a[1..], b, c);
      assert Without(ab, c) == (if a[0] == c then [] else [a[0]]) + Without(a[1..] + b, c);
    }
  }
}
