/** The context store of the `ctx` command (`src/ctx/mod.rs`): a directory of JSON
    context files plus an `index.json` naming the default one. The filesystem is a value:
    a set of directories and a map from file paths to contents. Everything the store
    learns from the outside world arrives as a parameter: the order in which reading a
    directory yields its entries, the user's answer to the choice prompt, and the home
    directory. */
module Store {
  import opened Results
  import opened Json
  import opened Paths
  import opened Context

  const IndexJson := "index.json"
  const CtxDir := ".wash/contexts"

  /** What a file holds: a JSON document, or bytes that are not one. */
  datatype FileContent = Doc(json: Json) | Garbled

  datatype Fs = Fs(dirs: set<Path>, files: map<Path, FileContent>)

  datatype Error =
    | NotFound(message: string)  // an `io::Error` of kind NotFound built by the store itself
    | DirUnreadable(dir: Path)   // reading the context directory failed
    | OpenFailed(path: Path)     // opening or reading a file failed
    | Malformed(path: Path)      // a file did not deserialise
    | CreateFailed(path: Path)   // `File::create` failed
    | RemoveFailed(path: Path)   // `remove_file` failed
    | EditorNotFound             // the editor is not on the search path

  /** A filesystem change together with the outcome of the operation that made it. */
  datatype Change<T> = Change(fs: Fs, result: Result<T, Error>)

  /** Files and directories are distinct, and every file sits, under a plain name, in an
      existing directory. */
  predicate Valid(fs: Fs) {
    && fs.files.Keys !! fs.dirs
    && forall p :: p in fs.files ==> |p.comps| > 0 && Plain(Last(p)) && Parent(p) in fs.dirs
  }

  /** No name occurs twice. */
  predicate Distinct(s: seq<string>) {
    forall i, j :: 0 <= i < j < |s| ==> s[i] != s[j]
  }

  /** `order` is what reading `dir` yields: every entry of `dir` exactly once. */
  ghost predicate Lists(fs: Fs, dir: Path, order: seq<string>) {
    && Distinct(order)
    && (forall n :: n in order ==> Plain(n))
    && (forall n :: Plain(n) ==> (n in order <==> Child(dir, n) in fs.files || Child(dir, n) in fs.dirs))
  }

  /** Something exists at `p` (what `std::fs::metadata` succeeds on). */
  predicate Exists(fs: Fs, p: Path) {
    p in fs.files || p in fs.dirs
  }

  /** `File::create(p)` succeeds: `p` names an entry of an existing directory and is not itself a directory. */
  predicate CanCreate(fs: Fs, p: Path) {
    |p.comps| > 0 && Plain(Last(p)) && Parent(p) in fs.dirs && p !in fs.dirs
  }

  /** Only the file at `p` may differ between `fs` and `fs'`. */
  ghost predicate OnlyChanged(fs: Fs, fs': Fs, p: Path) {
    && fs'.dirs == fs.dirs
    && (forall q :: q != p ==> (q in fs.files <==> q in fs'.files))
    && (forall q :: q != p && q in fs.files && q in fs'.files ==> fs.files[q] == fs'.files[q])
  }

  /** Creates or truncates `p` and writes `content`. */
  function WriteFile(fs: Fs, p: Path, content: FileContent): (r: Change<()>)
    ensures r.result.Ok? <==> CanCreate(fs, p)
    ensures r.result.Ok? ==> p in r.fs.files && r.fs.files[p] == content
    ensures r.result.Err? ==> r.fs == fs
    ensures OnlyChanged(fs, r.fs, p)
  {
    if CanCreate(fs, p) then Change(Fs(fs.dirs, fs.files[p := content]), Ok(()))
    else Change(fs, Err(CreateFailed(p)))
  }

  /** Writing the same content twice is writing it once. */
  lemma WriteFileTwice(fs: Fs, p: Path, content: FileContent)
    ensures WriteFile(WriteFile(fs, p, content).fs, p, content).fs == WriteFile(fs, p, content).fs
  {
    if CanCreate(fs, p) {
      assert fs.files[p := content][p := content] == fs.files[p := content];
    }
  }

  /** What the file held before does not matter to the result of a write. */
  lemma WriteFileOverwrites(fs: Fs, p: Path, previous: FileContent, content: FileContent)
    requires CanCreate(fs, p)
    ensures WriteFile(Fs(fs.dirs, fs.files[p := previous]), p, content).fs == WriteFile(fs, p, content).fs
  {
    assert fs.files[p := previous][p := content] == fs.files[p := content];
  }

  /** A successful write keeps the filesystem well formed. */
  lemma WriteFileValid(fs: Fs, p: Path, content: FileContent)
    requires Valid(fs)
    ensures Valid(WriteFile(fs, p, content).fs)
  {
  }

  /** `remove_file`: removes a file; a directory is not removed. */
  function RemoveFile(fs: Fs, p: Path): (r: Change<()>)
    ensures r.result.Ok? <==> p in fs.files
    ensures r.result.Ok? ==> r.fs == Fs(fs.dirs, fs.files - {p})
    ensures r.result.Err? ==> r.fs == fs
  {
    if p in fs.files then Change(Fs(fs.dirs, fs.files - {p}), Ok(()))
    else Change(fs, Err(RemoveFailed(p)))
  }

  /** Removing a file keeps the filesystem well formed. */
  lemma RemoveFileValid(fs: Fs, p: Path)
    requires Valid(fs)
    ensures Valid(RemoveFile(fs, p).fs)
  {
  }

  /** A directory entry is a context when its extension is `json` and it is not the index. */
  predicate IsContextEntry(dir: Path, name: string) {
    Extension(Child(dir, name)) == Some("json") && name != IndexJson
  }

  /** For a plain name, the same test on the name alone. */
  lemma ContextEntryByName(dir: Path, name: string)
    requires Plain(name)
    ensures IsContextEntry(dir, name) <==> HasJsonSuffix(name) && name != IndexJson
  {
    assert FileName(Child(dir, name)) == Some(name);
    JsonExtension(name);
  }

  /** The context entries among `order`, in the order given. */
  function ContextEntries(dir: Path, order: seq<string>): (r: seq<string>)
    ensures |r| <= |order|
    ensures forall n :: n in r <==> n in order && IsContextEntry(dir, n)
  {
    if order == [] then []
    else if IsContextEntry(dir, order[0]) then [order[0]] + ContextEntries(dir, order[1..])
    else ContextEntries(dir, order[1..])
  }

  /** Selection keeps the order of the directory listing. */
  lemma {:induction false} ContextEntriesAppend(dir: Path, a: seq<string>, b: seq<string>)
    ensures ContextEntries(dir, a + b) == ContextEntries(dir, a) + ContextEntries(dir, b)
    decreases |a|
  {
    if a == [] {
      assert a + b == b;
    } else {
      assert (a + b)[1..] == a[1..] + b;
      ContextEntriesAppend(dir, a[1..], b);
    }
  }

  function ChildPaths(dir: Path, names: seq<string>): seq<Path> {
    seq(|names|, i requires 0 <= i < |names| => Child(dir, names[i]))
  }

  lemma ChildInjective(dir: Path, a: string, b: string)
    ensures Child(dir, a) == Child(dir, b) ==> a == b
  {
    if Child(dir, a) == Child(dir, b) {
      assert Child(dir, a).comps[|dir.comps|] == a;
    }
  }

  /** `get_contexts`: the paths of the `.json` entries of `dir` other than `index.json`. */
  function GetContexts(fs: Fs, dir: Path, order: seq<string>): (r: Result<seq<Path>, Error>)
    ensures r.Ok? <==> dir in fs.dirs
    ensures r.Ok? ==> forall n :: Child(dir, n) in r.value <==> n in order && IsContextEntry(dir, n)
    ensures r.Ok? ==> Child(dir, IndexJson) !in r.value && Child(dir, ".json") !in r.value
  {
    if dir !in fs.dirs then Err(DirUnreadable(dir))
    else
      var names := ContextEntries(dir, order);
      var paths := ChildPaths(dir, names);
      assert forall n :: Child(dir, n) in paths <==> n in names by {
        forall n ensures Child(dir, n) in paths <==> n in names {
          if Child(dir, n) in paths {
            var i :| 0 <= i < |paths| && paths[i] == Child(dir, n);
            ChildInjective(dir, n, names[i]);
          }
          if n in names {
            var i :| 0 <= i < |names| && names[i] == n;
            assert paths[i] == Child(dir, n);
          }
        }
      }
      assert !IsContextEntry(dir, ".json") by {
        assert FileName(Child(dir, ".json")) == Some(".json");
        JsonExtension(".json");
      }
      Ok(paths)
  }

  /** `context_filestems_from_path`: each path's stem, or the empty string for a path without a file name. */
  function FileStems(paths: seq<Path>): (r: seq<string>)
    ensures |r| == |paths|
  {
    seq(|paths|, i requires 0 <= i < |paths| => FileStem(paths[i]).GetOr(""))
  }

  /** `context_path_from_name`: `<dir>/<name>.json`. For a name without a slash this is an
      entry of `dir` itself; `Path::join` would otherwise descend, or start over at the root. */
  function ContextPathFromName(dir: Path, name: string): (r: Path)
    ensures NoSlash(name) ==> r == Child(dir, name + ".json")
  {
    ContextPathIsChild(dir, name);
    Join(dir, name + ".json")
  }

  lemma ContextPathIsChild(dir: Path, name: string)
    ensures NoSlash(name) ==> Join(dir, name + ".json") == Child(dir, name + ".json")
  {
    if NoSlash(name) {
      ContextFileComponent(name);
      JoinComponent(dir, name + ".json");
    }
  }

  /** For a non-empty name without a slash the context path is the entry `<name>.json` of
      `dir`, and its stem gives the name back. */
  lemma ContextPathRoundTrip(dir: Path, name: string)
    requires name != "" && NoSlash(name)
    ensures ContextPathFromName(dir, name) == Child(dir, name + ".json")
    ensures FileStem(ContextPathFromName(dir, name)) == Some(name)
    ensures Extension(ContextPathFromName(dir, name)) == Some("json")
  {
    ContextFileComponent(name);
    JoinComponent(dir, name + ".json");
    ContextFileParts(name);
  }

  /** Listed contexts and names convert into each other: the stem of each listed path,
      turned back into a context path, is that path. */
  lemma StemsRoundTrip(fs: Fs, dir: Path, order: seq<string>)
    requires dir in fs.dirs
    requires forall n :: n in order ==> Plain(n)
    ensures var paths := GetContexts(fs, dir, order).value;
      forall i :: 0 <= i < |paths| ==> ContextPathFromName(dir, FileStems(paths)[i]) == paths[i]
  {
    var names := ContextEntries(dir, order);
    var paths := GetContexts(fs, dir, order).value;
    forall i | 0 <= i < |paths| ensures ContextPathFromName(dir, FileStems(paths)[i]) == paths[i] {
      var n := names[i];
      assert n in names;
      ContextEntryByName(dir, n);
      var stem := n[..|n| - 5];
      assert stem + ".json" == n;
      assert NoSlash(stem) by {
        forall k | 0 <= k < |stem| ensures stem[k] != '/' { assert stem[k] == n[k]; }
      }
      ContextPathRoundTrip(dir, stem);
    }
  }

  /** `context_dir`: the directory given, or `.wash/contexts` under the home directory. */
  function ContextDir(dirArg: Option<Path>, home: Option<Path>): (r: Result<Path, Error>)
    ensures dirArg.Some? ==> r == Ok(dirArg.value)
    ensures dirArg.None? && home.Some? ==> r == Ok(Child(Child(home.value, ".wash"), "contexts"))
    ensures dirArg.None? && home.None? ==> r.Err? && r.error.NotFound?
  {
    match dirArg
    case Some(d) => Ok(d)
    case None =>
      match home
      case None => Err(NotFound("Context directory not found, please set $HOME or $WASH_CONTEXTS for managed contexts"))
      case Some(h) => Ok(Child(Child(h, ".wash"), "contexts"))
  }

  /** The home directory joined with `.wash/contexts` is the directory `ContextDir` names. */
  lemma HomeContextDir(home: Path)
    ensures Join(home, CtxDir) == Child(Child(home, ".wash"), "contexts")
  {
    assert CtxDir == ".wash" + "/" + "contexts";
    assert Component(".wash") by {
      assert forall i :: 0 <= i < 5 ==> ".wash"[i] != '/';
    }
    assert Component("contexts") by {
      assert forall i :: 0 <= i < 8 ==> "contexts"[i] != '/';
    }
    JoinTwo(home, ".wash", "contexts");
  }

  /** The index file is the entry `index.json` of the context directory. */
  lemma IndexPathIsJoin(dir: Path)
    ensures Join(dir, IndexJson) == Child(dir, IndexJson)
  {
    assert Component(IndexJson) by {
      assert forall i :: 0 <= i < 10 ==> IndexJson[i] != '/';
    }
    JoinComponent(dir, IndexJson);
  }

  /** Reads and deserialises a file of the store. */
  function ReadDoc(fs: Fs, p: Path): (r: Result<Json, Error>)
    ensures r.Ok? <==> p in fs.files && fs.files[p].Doc?
  {
    if p !in fs.files then Err(OpenFailed(p))
    else match fs.files[p]
      case Garbled => Err(Malformed(p))
      case Doc(j) => Ok(j)
  }

  /** `get_index`: the index record of `dir`. */
  function GetIndex(fs: Fs, dir: Path): (r: Result<DefaultContext, Error>)
    ensures var p := Child(dir, IndexJson);
      r.Ok? <==> p in fs.files && fs.files[p].Doc? && DecodeIndex(fs.files[p].json).Ok?
    ensures var p := Child(dir, IndexJson);
      r.Ok? ==> r.value == DecodeIndex(fs.files[p].json).value
  {
    var p := Child(dir, IndexJson);
    var j :- ReadDoc(fs, p);
    match DecodeIndex(j)
    case Ok(d) => Ok(d)
    case Err(_) => Err(Malformed(p))
  }

  /** Reading the index is unaffected by changes to other files. */
  lemma GetIndexUnchanged(fs: Fs, fs': Fs, dir: Path)
    requires Child(dir, IndexJson) in fs.files <==> Child(dir, IndexJson) in fs'.files
    requires Child(dir, IndexJson) in fs.files ==> fs.files[Child(dir, IndexJson)] == fs'.files[Child(dir, IndexJson)]
    ensures GetIndex(fs', dir) == GetIndex(fs, dir)
  {
  }

  /** `set_default_context`: overwrites `index.json` with a record naming `name`; nothing is
      merged, the named context need not exist, and no other file changes. */
  function SetDefaultContext(fs: Fs, dir: Path, name: string): (r: Change<()>)
    ensures r.result.Ok? <==> CanCreate(fs, Child(dir, IndexJson))
    ensures r.result.Ok? ==>
      Child(dir, IndexJson) in r.fs.files && r.fs.files[Child(dir, IndexJson)] == Doc(EncodeIndex(DefaultContext(name)))
    ensures r.result.Ok? ==> GetIndex(r.fs, dir) == Ok(DefaultContext(name))
    ensures r.result.Err? ==> r.fs == fs
    ensures OnlyChanged(fs, r.fs, Child(dir, IndexJson))
  {
    IndexRoundTrip(name);
    WriteFile(fs, Child(dir, IndexJson), Doc(EncodeIndex(DefaultContext(name))))
  }

  /** `load_context`: reads a context file; absent fields take their defaults. */
  function LoadContext(fs: Fs, p: Path): (r: Result<WashContext, Error>)
    ensures r.Ok? <==> p in fs.files && fs.files[p].Doc? && DecodeContext(fs.files[p].json).Ok?
    ensures r.Ok? ==> r.value == DecodeContext(fs.files[p].json).value
    ensures forall c :: p in fs.files && fs.files[p] == Doc(EncodeContext(c)) ==> r == Ok(c)
  {
    EncodingsDecode();
    var j :- ReadDoc(fs, p);
    match DecodeContext(j)
    case Ok(c) => Ok(c)
    case Err(_) => Err(Malformed(p))
  }

  /** A file holding `{}` loads as `WashContext::default()`. */
  lemma LoadEmptyIsDefault(fs: Fs, p: Path)
    requires p in fs.files && fs.files[p] == Doc(JObj([]))
    ensures LoadContext(fs, p) == Ok(Default())
  {
    EmptyDecodesToDefault();
  }

  /** Loading a file is unaffected by a change confined to another file. */
  lemma LoadContextUnchanged(fs: Fs, fs': Fs, changed: Path, p: Path)
    requires OnlyChanged(fs, fs', changed) && p != changed
    ensures LoadContext(fs', p) == LoadContext(fs, p)
  {
    if p in fs.files {
      assert fs.files[p] == fs'.files[p];
    }
  }

  /** `get_default_context`: the context the index names. It fails when the index is
      missing or unreadable, and when the context it names is missing. */
  function GetDefaultContext(fs: Fs, dir: Path): (r: Result<WashContext, Error>)
    ensures Child(dir, IndexJson) !in fs.files ==> r.Err?
    ensures GetIndex(fs, dir).Ok? && ContextPathFromName(dir, GetIndex(fs, dir).value.name) !in fs.files ==> r.Err?
    ensures r.Ok? <==> GetIndex(fs, dir).Ok? && LoadContext(fs, ContextPathFromName(dir, GetIndex(fs, dir).value.name)).Ok?
    ensures r.Ok? ==> r.value == LoadContext(fs, ContextPathFromName(dir, GetIndex(fs, dir).value.name)).value
  {
    var index :- GetIndex(fs, dir);
    LoadContext(fs, ContextPathFromName(dir, index.name))
  }

  /** The user's answer to the choice prompt: a position in the list shown, or an abort. */
  datatype Answer = Picked(index: nat) | Aborted

  /** The interactive choice prompt: it is shown the choices and the default to highlight. */
  type Prompt = (seq<string>, Option<string>) -> Answer

  /** The choice the selection prompt highlights: the current default, when the index reads. */
  function Highlight(fs: Fs, dir: Path): (r: Option<string>)
    ensures r.Some? <==> GetIndex(fs, dir).Ok?
    ensures r.Some? ==> GetIndex(fs, dir) == Ok(DefaultContext(r.value))
  {
    match GetIndex(fs, dir)
    case Ok(d) => Some(d.name)
    case Err(_) => None
  }

  /** After the default is set, the prompt highlights the new default. */
  lemma HighlightAfterDefault(fs: Fs, dir: Path, name: string)
    requires SetDefaultContext(fs, dir, name).result.Ok?
    ensures Highlight(SetDefaultContext(fs, dir, name).fs, dir) == Some(name)
  {
  }

  /** `select_context`: the stem the user picked, or nothing when the prompt fails or
      answers with a position past the end of the list. */
  function SelectContext(fs: Fs, dir: Path, contexts: seq<Path>, prompt: Prompt): (r: Option<string>)
    ensures var a := prompt(FileStems(contexts), Highlight(fs, dir));
      r.Some? <==> a.Picked? && a.index < |contexts|
    ensures var a := prompt(FileStems(contexts), Highlight(fs, dir));
      r.Some? ==> r.value == FileStem(contexts[a.index]).GetOr("")
  {
    var choices := FileStems(contexts);
    match prompt(choices, Highlight(fs, dir))
    case Picked(i) => if i < |choices| then Some(choices[i]) else None
    case Aborted => None
  }
}
