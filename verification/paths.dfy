/** Paths as Rust's `std::path::Path` sees them: a root flag and a list of normal
    components. Equality of two `Path` values is component-wise, which is how `PathBuf`
    equality (and so `Vec::contains`) behaves. File names, stems and extensions follow
    `Path::file_name`, `Path::file_stem` and `Path::extension`. */
module Paths {
  import opened Results

  datatype Path = Path(absolute: bool, comps: seq<string>)

  predicate NoSlash(s: string) {
    forall i :: 0 <= i < |s| ==> s[i] != '/'
  }

  /** A piece the component iterator yields: it drops empty pieces (`a//b`) and `.` pieces (`a/./b`). */
  predicate Component(s: string) {
    s != "" && s != "." && NoSlash(s)
  }

  /** A name that can stand for an entry of a directory. */
  predicate Plain(s: string) {
    Component(s) && s != ".."
  }

  /** Index of the first `/` in `s`, or `|s|` when there is none. */
  function SlashIndex(s: string): (k: nat)
    ensures k <= |s|
    ensures forall i :: 0 <= i < k ==> s[i] != '/'
    ensures k < |s| ==> s[k] == '/'
  {
    if s == [] || s[0] == '/' then 0 else 1 + SlashIndex(s[1..])
  }

  /** The components of the path text `s`. */
  function Comps(s: string): (r: seq<string>)
    ensures forall i :: 0 <= i < |r| ==> Component(r[i])
    decreases |s|
  {
    var k := SlashIndex(s);
    var rest := if k < |s| then Comps(s[k + 1..]) else [];
    if s[..k] == "" || s[..k] == "." then rest else [s[..k]] + rest
  }

  predicate IsAbsolute(s: string) {
    |s| > 0 && s[0] == '/'
  }

  /** `base.join(s)`: an absolute `s` replaces `base`, a relative one is appended to it. */
  function Join(base: Path, s: string): Path {
    if IsAbsolute(s) then Path(true, Comps(s)) else Path(base.absolute, base.comps + Comps(s))
  }

  /** The entry called `name` directly inside `dir`. */
  function Child(dir: Path, name: string): Path {
    Path(dir.absolute, dir.comps + [name])
  }

  function Last(p: Path): string
    requires |p.comps| > 0
  {
    p.comps[|p.comps| - 1]
  }

  function Parent(p: Path): Path
    requires |p.comps| > 0
  {
    Path(p.absolute, p.comps[..|p.comps| - 1])
  }

  /** `Path::file_name`: the last component, unless the path ends in `..` or has none. */
  function FileName(p: Path): Option<string> {
    if |p.comps| == 0 || Last(p) == ".." then None else Some(Last(p))
  }

  /** Index of the last `.` in `s`. */
  function LastDot(s: string): (r: Option<nat>)
    ensures r.Some? ==> r.value < |s| && s[r.value] == '.'
    ensures r.Some? ==> forall i :: r.value < i < |s| ==> s[i] != '.'
    ensures r.None? ==> forall i :: 0 <= i < |s| ==> s[i] != '.'
  {
    if s == [] then None
    else if s[|s| - 1] == '.' then Some(|s| - 1)
    else LastDot(s[..|s| - 1])
  }

  /** Splits a file name at its last dot into (before, after), the way the standard library
      does: `..` is not split, and a name whose only dot is its first character (a dotfile)
      has no extension. */
  function SplitAtDot(name: string): (Option<string>, Option<string>) {
    if name == ".." then (Some(name), None)
    else match LastDot(name)
      case None => (None, Some(name))
      case Some(i) => if i == 0 then (Some(name), None) else (Some(name[..i]), Some(name[i + 1..]))
  }

  /** The stem of a file name: `before.or(after)`. */
  function StemOf(name: string): string {
    var (before, after) := SplitAtDot(name);
    if before.Some? then before.value else after.GetOr("")
  }

  /** The extension of a file name: `before.and(after)`. */
  function ExtOf(name: string): Option<string> {
    var (before, after) := SplitAtDot(name);
    if before.Some? then after else None
  }

  /** `Path::file_stem`. */
  function FileStem(p: Path): Option<string> {
    match FileName(p)
    case None => None
    case Some(n) => Some(StemOf(n))
  }

  /** `Path::extension`. */
  function Extension(p: Path): Option<string> {
    match FileName(p)
    case None => None
    case Some(n) => ExtOf(n)
  }

  predicate HasJsonSuffix(name: string) {
    |name| > 5 && name[|name| - 5..] == ".json"
  }

  lemma CompsSingle(name: string)
    requires Component(name)
    ensures Comps(name) == [name]
  {
    assert SlashIndex(name) == |name|;
    assert name[..|name|] == name;
  }

  lemma CompsCons(first: string, rest: string)
    requires Component(first)
    ensures Comps(first + "/" + rest) == [first] + Comps(rest)
  {
    var s := first + "/" + rest;
    assert s[|first|] == '/';
    assert SlashIndex(s) == |first|;
    assert s[..|first|] == first;
    assert s[|first| + 1..] == rest;
  }

  /** Joining a single normal component is the same as naming a child. */
  lemma JoinComponent(dir: Path, name: string)
    requires Component(name)
    ensures Join(dir, name) == Child(dir, name)
  {
    CompsSingle(name);
  }

  /** Joining a single component is taking that child. */
  lemma JoinSingle(dir: Path, name: string)
    ensures Component(name) ==> Join(dir, name) == Child(dir, name)
  {
    if Component(name) {
      JoinComponent(dir, name);
    }
  }

  /** The extension is `json` exactly when the name is a non-empty stem followed by `.json`;
      so a dotfile called `.json` has no extension at all. */
  lemma JsonExtension(name: string)
    ensures ExtOf(name) == Some("json") <==> HasJsonSuffix(name)
    ensures HasJsonSuffix(name) ==> StemOf(name) == name[..|name| - 5]
  {
    if HasJsonSuffix(name) {
      var j := |name| - 5;
      assert name[j] == '.';
      assert forall i :: j < i < |name| ==> name[i] != '.' by {
        forall i | j < i < |name| ensures name[i] != '.' {
          assert name[i] == name[j..][i - j];
        }
      }
      var d := LastDot(name);
      assert d == Some(j);
      assert name[j + 1..] == "json" by {
        assert name[j + 1..] == name[j..][1..];
      }
    }
    if ExtOf(name) == Some("json") {
      var d := LastDot(name);
      assert d.Some? && d.value != 0 && name != "..";
      var j := d.value;
      assert name[j + 1..] == "json";
      assert |name| == j + 5;
      assert name[j..] == [name[j]] + name[j + 1..];
    }
  }

  /** The file name `<name>.json` has stem `name` and extension `json` when `name` is not empty. */
  lemma ContextFileParts(name: string)
    requires name != ""
    ensures HasJsonSuffix(name + ".json")
    ensures ExtOf(name + ".json") == Some("json")
    ensures StemOf(name + ".json") == name
  {
    var f := name + ".json";
    assert f[|f| - 5..] == ".json";
    assert f[..|f| - 5] == name;
    JsonExtension(f);
  }

  /** Appending `.json` to a name without a slash leaves one component. */
  lemma ContextFileComponent(name: string)
    requires NoSlash(name)
    ensures Plain(name + ".json")
  {
    var f := name + ".json";
    assert f[|f| - 1] == 'n';
    assert forall i :: 0 <= i < |f| ==> f[i] != '/' by {
      forall i | 0 <= i < |f| ensures f[i] != '/' {
        if i < |name| { assert f[i] == name[i]; } else { assert f[i] == ".json"[i - |name|]; }
      }
    }
  }

  /** Joining `a/b` names the entry `b` of the entry `a`. */
  lemma JoinTwo(base: Path, a: string, b: string)
    requires Component(a) && Component(b)
    ensures Join(base, a + "/" + b) == Child(Child(base, a), b)
  {
    CompsCons(a, b);
    CompsSingle(b);
    assert (a + "/" + b)[0] == a[0];
  }
}
