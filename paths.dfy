/**
 * POSIX path helpers: `is_installed_module` (lo99ing/misc.py:69-77) and
 * `_name_fixup` (lo99ing/utils.py:90-107). A path is read the way
 * `pathlib.PurePosixPath` reads it: split at '/', without empty and "."
 * components.
 */
module Paths {
  import opened Strings

  const Sep: char := '/'

  /** `s.split(sep)`: the pieces between separators, empty ones included. */
  function Split(s: string, sep: char): (r: seq<string>)
    ensures |r| >= 1
    ensures forall k :: 0 <= k < |r| ==> sep !in r[k]
    decreases |s|
  {
    if sep !in s then [s]
    else
      var i := Find(s, sep);
      [s[..i]] + Split(s[i + 1..], sep)
  }

  /** Keeps the pieces that are neither empty nor ".". */
  function Significant(pieces: seq<string>): (r: seq<string>)
    ensures forall k :: 0 <= k < |r| ==> r[k] != "" && r[k] != "." && r[k] in pieces
  {
    if pieces == [] then []
    else
      var rest := Significant(pieces[1..]);
      assert forall p :: p in pieces[1..] ==> p in pieces;
      if pieces[0] != "" && pieces[0] != "." then [pieces[0]] + rest else rest
  }

  /** The named components of a path, as `PurePosixPath(p).parts` without the root. */
  function Components(p: string): (r: seq<string>)
    ensures forall k :: 0 <= k < |r| ==> Sep !in r[k] && r[k] != ""
  {
    var pieces := Split(p, Sep);
    var r := Significant(pieces);
    assert forall k :: 0 <= k < |r| ==> r[k] in pieces;
    r
  }

  /**
   * The `.name` of each of `Path(p).parents`, nearest first: every component
   * but the last, then "" for the final "." or "/" parent.
   */
  function ParentNames(c: seq<string>): (r: seq<string>)
    ensures |c| == 0 ==> r == []
    ensures |c| > 0 ==> |r| == |c|
  {
    if |c| == 0 then []
    else if |c| == 1 then [""]
    else [c[|c| - 2]] + ParentNames(c[..|c| - 1])
  }

  predicate IsInstallDir(name: string) {
    name == "site-packages" || name == "dist-packages"
  }

  /** `is_installed_module(p)`: `any(parent.name in [...] for parent in Path(p).parents)`. */
  function IsInstalledModule(p: string): bool {
    var names := ParentNames(Components(p));
    exists k :: 0 <= k < |names| && IsInstallDir(names[k])
  }

  lemma {:induction false} ParentNamesAreAncestors(c: seq<string>)
    ensures (exists k :: 0 <= k < |ParentNames(c)| && IsInstallDir(ParentNames(c)[k])) <==>
            (exists i :: 0 <= i < |c| - 1 && IsInstallDir(c[i]))
  {
    if |c| > 1 {
      var front := c[..|c| - 1];
      ParentNamesAreAncestors(front);
      var names := ParentNames(c);
      assert names == [c[|c| - 2]] + ParentNames(front);
      assert forall k :: 1 <= k < |names| ==> names[k] == ParentNames(front)[k - 1];
      assert forall i :: 0 <= i < |front| ==> front[i] == c[i];
      if exists i :: 0 <= i < |c| - 1 && IsInstallDir(c[i]) {
        var i :| 0 <= i < |c| - 1 && IsInstallDir(c[i]);
        if i == |c| - 2 {
          assert IsInstallDir(names[0]);
        } else {
          assert IsInstallDir(front[i]);
          var k :| 0 <= k < |ParentNames(front)| && IsInstallDir(ParentNames(front)[k]);
          assert IsInstallDir(names[k + 1]);
        }
      }
    }
  }

  /** A module is installed iff some directory above it (not its own name) is site- or dist-packages. */
  lemma IsInstalledModuleSpec(p: string)
    ensures IsInstalledModule(p) <==>
              exists i :: 0 <= i < |Components(p)| - 1 && IsInstallDir(Components(p)[i])
  {
    var c := Components(p);
    var names := ParentNames(c);
    ParentNamesAreAncestors(c);
    if IsInstalledModule(p) {
      var k :| 0 <= k < |names| && IsInstallDir(names[k]);
      assert exists k :: 0 <= k < |ParentNames(c)| && IsInstallDir(ParentNames(c)[k]);
    }
    if exists i :: 0 <= i < |c| - 1 && IsInstallDir(c[i]) {
      var k :| 0 <= k < |ParentNames(c)| && IsInstallDir(ParentNames(c)[k]);
      assert IsInstallDir(names[k]);
    }
  }

  /** `Path(p).name`: the last component, or "". */
  function BaseName(p: string): (r: string)
    ensures Sep !in r
  {
    var c := Components(p);
    if c == [] then "" else c[|c| - 1]
  }

  /** `Path(p).parent.name`: the last-but-one component, or "". */
  function ParentName(p: string): (r: string)
    ensures Sep !in r
  {
    var c := Components(p);
    if |c| < 2 then "" else c[|c| - 2]
  }

  /**
   * `os.path.splitext(name)[0]` for a name without '/': cut at the last dot,
   * unless only dots come before it (".bashrc" keeps its dot).
   */
  function Stem(name: string): (r: string)
    ensures |r| <= |name| && r == name[..|r|]
    ensures Sep !in name ==> Sep !in r
    ensures '.' !in name ==> r == name
    ensures var d := RFind(name, '.');
            if d > 0 && exists i :: 0 <= i < d && name[i] != '.' then r == name[..d] else r == name
  {
    var d := RFind(name, '.');
    if d > 0 && exists i :: 0 <= i < d && name[i] != '.' then name[..d] else name
  }

  /**
   * `_name_fixup(name)`: a name with a '/' is a file path, and becomes its
   * module name: the file's stem, or the directory name for a package's
   * `__init__` file or an empty stem.
   */
  function NameFixup(name: string): (r: string)
    ensures Sep !in name ==> r == name
    ensures Sep !in r
  {
    if Sep in name then
      var res := Stem(BaseName(name));
      if res == "" || res == "__init__" then ParentName(name) else res
    else name
  }

  /** Fixing a name up twice is fixing it once. */
  lemma NameFixupIdempotent(name: string)
    ensures NameFixup(NameFixup(name)) == NameFixup(name)
  {
  }

  lemma {:induction false} SplitAtSeparator(a: string, b: string, sep: char)
    requires sep !in a
    ensures Split(a + [sep] + b, sep) == [a] + Split(b, sep)
  {
    var s := a + [sep] + b;
    assert s[|a|] == sep;
    assert forall j :: 0 <= j < |a| ==> s[j] == a[j];
    assert s[..|a|] == a;
    assert Find(s, sep) == |a|;
    assert s[|a| + 1..] == b;
  }

  /** Splitting at a separator splits each side independently. */
  lemma {:induction false} SplitConcat(a: string, b: string, sep: char)
    ensures Split(a + [sep] + b, sep) == Split(a, sep) + Split(b, sep)
    decreases |a|
  {
    if sep !in a {
      SplitAtSeparator(a, b, sep);
    } else {
      var i := Find(a, sep);
      var a1, a2 := a[..i], a[i + 1..];
      assert a == a1 + [sep] + a2;
      var tail := a2 + [sep] + b;
      assert a + [sep] + b == a1 + [sep] + tail;
      calc {
        Split(a + [sep] + b, sep);
        { SplitAtSeparator(a1, tail, sep); }
        [a1] + Split(tail, sep);
        { SplitConcat(a2, b, sep); }
        [a1] + (Split(a2, sep) + Split(b, sep));
        ([a1] + Split(a2, sep)) + Split(b, sep);
        { SplitAtSeparator(a1, a2, sep); }
        Split(a, sep) + Split(b, sep);
      }
    }
  }

  lemma {:induction false} SignificantConcat(x: seq<string>, y: seq<string>)
    ensures Significant(x + y) == Significant(x) + Significant(y)
  {
    if x == [] {
      assert x + y == y;
    } else {
      assert (x + y)[0] == x[0];
      assert (x + y)[1..] == x[1..] + y;
      SignificantConcat(x[1..], y);
    }
  }

  /** The components of `a/b` are those of `a` followed by those of `b`. */
  lemma ComponentsConcat(a: string, b: string)
    ensures Components(a + [Sep] + b) == Components(a) + Components(b)
  {
    SplitConcat(a, b, Sep);
    SignificantConcat(Split(a, Sep), Split(b, Sep));
  }

  lemma ComponentsOfPiece(x: string)
    requires Sep !in x
    ensures Components(x) == if x == "" || x == "." then [] else [x]
  {
    assert Split(x, Sep) == [x];
    assert [x][1..] == [];
    assert Significant([x][1..]) == [];
    if x != "" && x != "." {
      assert Significant([x]) == [x] + Significant([x][1..]);
    } else {
      assert Significant([x]) == Significant([x][1..]);
    }
  }

  lemma StemOfAbc()
    ensures Stem("abc.py") == "abc"
  {
    assert RFind("abc.py", '.') == 3;
    assert "abc.py"[0] != '.';
  }

  lemma StemOfInit()
    ensures Stem("__init__.py") == "__init__"
  {
    assert RFind("__init__.py", '.') == 8;
    assert "__init__.py"[0] != '.';
  }

  /**
   * A module file `dirs/file` is named by the file's stem, as in the example
   * "/usr/lib/python3.5/abc.py" -> "abc".
   */
  lemma NameFixupOfModuleFile(dirs: string, file: string)
    requires Sep !in file && file != "" && file != "."
    requires Stem(file) != "" && Stem(file) != "__init__"
    ensures NameFixup(dirs + [Sep] + file) == Stem(file)
  {
    var p := dirs + [Sep] + file;
    assert Sep in p by { assert p[|dirs|] == Sep; }
    ComponentsConcat(dirs, file);
    ComponentsOfPiece(file);
    assert BaseName(p) == file;
  }

  /**
   * A package's `dirs/pkg/__init__.py` is named by its directory, as in the
   * example "/usr/lib/python3.5/distutils/__init__.py" -> "distutils".
   */
  lemma NameFixupOfPackageInit(dirs: string, pkg: string, file: string)
    requires Sep !in pkg && pkg != "" && pkg != "."
    requires Sep !in file && file != "" && file != "."
    requires Stem(file) == "" || Stem(file) == "__init__"
    ensures NameFixup(dirs + [Sep] + pkg + [Sep] + file) == pkg
  {
    var d := dirs + [Sep] + pkg;
    var p := d + [Sep] + file;
    assert Sep in p by { assert p[|d|] == Sep; }
    assert Components(d) == Components(dirs) + [pkg] by {
      ComponentsConcat(dirs, pkg);
      ComponentsOfPiece(pkg);
    }
    assert Components(p) == Components(dirs) + [pkg] + [file] by {
      ComponentsConcat(d, file);
      ComponentsOfPiece(file);
    }
    assert BaseName(p) == file;
    assert ParentName(p) == pkg;
  }
}
