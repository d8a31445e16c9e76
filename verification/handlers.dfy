/** The `ctx` subcommands (`list`, `default`, `del`, `new`, `edit`) of `src/ctx/mod.rs`,
    each a function from the filesystem and the command's inputs to the new filesystem and
    a result. The directory option stands for `--directory` or `$WASH_CONTEXTS`; `home`
    is what the home-directory lookup returns; `order` is the order in which reading the
    context directory yields its entries; `prompt` answers the interactive choice. */
module Handlers {
  import opened Results
  import opened Paths
  import opened Context
  import opened Store

  datatype OutputKind = Text | JsonOutput

  /** What `list` hands to the output formatter: the directory, the names shown and the
      `default` field of the JSON form. */
  datatype Listing = Listing(dir: Path, contexts: seq<string>, default: string)

  const DefaultSuffix := " (default)"
  const DefaultNotFound := "Failed to set new default, context supplied was not found"
  const DeleteNotFound := "Failed to delete, no context found"
  const EditNotFound := "Unable to find context supplied, please ensure it exists"

  /** The text listing's marking: the entries equal to the default name gain ` (default)`,
      the others are left as they are, and none is added, dropped or moved. */
  function MarkDefault(names: seq<string>, default: string): (r: seq<string>)
    ensures |r| == |names|
    ensures forall i :: 0 <= i < |names| && names[i] == default ==> r[i] == default + DefaultSuffix
    ensures forall i :: 0 <= i < |names| && names[i] != default ==> r[i] == names[i]
  {
    seq(|names|, i requires 0 <= i < |names| => if names[i] == default then names[i] + DefaultSuffix else names[i])
  }

  /** The stem of a listed context file is its name without `.json`. */
  lemma ListedStem(dir: Path, n: string)
    requires IsContextEntry(dir, n)
    ensures FileStem(Child(dir, n)) == Some(StemOf(n))
    ensures HasJsonSuffix(n) && StemOf(n) == n[..|n| - 5] && StemOf(n) + ".json" == n
    ensures StemOf(n) != "" && StemOf(n) != "index"
  {
    assert FileName(Child(dir, n)) == Some(n);
    JsonExtension(n);
    assert n == n[..|n| - 5] + n[|n| - 5..];
  }

  /** `handle_list`: every context of the directory by name, in listing order. In text mode,
      when the index is readable, the entries equal to the default name carry ` (default)`;
      the `default` field is that name, or `N/A` when the index cannot be read. */
  function HandleList(fs: Fs, dirArg: Option<Path>, home: Option<Path>, kind: OutputKind, order: seq<string>)
    : (r: Result<Listing, Error>)
    ensures r.Ok? <==> ContextDir(dirArg, home).Ok? && ContextDir(dirArg, home).value in fs.dirs
    ensures r.Ok? ==>
      var dir := ContextDir(dirArg, home).value;
      var names := ContextEntries(dir, order);
      var index := GetIndex(fs, dir);
      && r.value.dir == dir
      && r.value.default == (if index.Ok? then index.value.name else "N/A")
      && |r.value.contexts| == |names|
      && forall i :: 0 <= i < |names| ==>
           r.value.contexts[i] == (if kind.Text? && index.Ok? && StemOf(names[i]) == index.value.name
                                   then StemOf(names[i]) + DefaultSuffix else StemOf(names[i]))
  {
    var dir :- ContextDir(dirArg, home);
    var index := GetIndex(fs, dir).ToOption();
    var paths :- GetContexts(fs, dir, order);
    var names := ContextEntries(dir, order);
    assert forall i :: 0 <= i < |names| ==> FileStems(paths)[i] == StemOf(names[i]) by {
      forall i | 0 <= i < |names| ensures FileStems(paths)[i] == StemOf(names[i]) {
        assert names[i] in names;
        ListedStem(dir, names[i]);
      }
    }
    var contexts := FileStems(paths);
    var shown := if kind.Text? && index.Some? then MarkDefault(contexts, index.value.name) else contexts;
    Ok(Listing(dir, shown, if index.Some? then index.value.name else "N/A"))
  }

  /** The names `list` shows never include `index`, in either output form. */
  lemma ListNeverShowsIndex(fs: Fs, dirArg: Option<Path>, home: Option<Path>, kind: OutputKind, order: seq<string>)
    requires HandleList(fs, dirArg, home, kind, order).Ok?
    ensures "index" !in HandleList(fs, dirArg, home, kind, order).value.contexts
  {
    var dir := ContextDir(dirArg, home).value;
    var names := ContextEntries(dir, order);
    var shown := HandleList(fs, dirArg, home, kind, order).value.contexts;
    forall i | 0 <= i < |shown| ensures shown[i] != "index" {
      assert names[i] in names;
      ListedStem(dir, names[i]);
      assert |StemOf(names[i]) + DefaultSuffix| > 5;
    }
  }

  /** Different names give different context file names; in particular only `index` gives
      `index.json`. */
  lemma JsonNameInjective(a: string, b: string)
    ensures a + ".json" == b + ".json" ==> a == b
  {
    if a + ".json" == b + ".json" {
      assert a == (a + ".json")[..|a|];
      assert b == (b + ".json")[..|b|];
    }
  }

  /** `<dir>/<name>.json` is among the listed contexts exactly when the entry `<name>.json`
      exists and `name` is not `index`. */
  lemma ListedByName(fs: Fs, dir: Path, order: seq<string>, name: string)
    requires dir in fs.dirs && Lists(fs, dir, order)
    requires name != "" && NoSlash(name)
    ensures ContextPathFromName(dir, name) in GetContexts(fs, dir, order).value
        <==> name != "index" && Exists(fs, Child(dir, name + ".json"))
  {
    var n := name + ".json";
    var contexts := GetContexts(fs, dir, order).value;
    ContextPathRoundTrip(dir, name);
    ContextFileComponent(name);
    ContextFileParts(name);
    ContextEntryByName(dir, n);
    JsonNameInjective(name, "index");
    assert IsContextEntry(dir, n) <==> name != "index";
    assert n in order <==> Exists(fs, Child(dir, n));
    assert Child(dir, n) in contexts <==> n in order && IsContextEntry(dir, n);
  }

  /** Every name a JSON-mode listing shows is a non-empty name without a slash, other than
      `index`, for which `<name>.json` exists. */
  lemma ListedNameExists(fs: Fs, dir: Path, home: Option<Path>, order: seq<string>, s: string)
    requires dir in fs.dirs && Lists(fs, dir, order)
    requires s in HandleList(fs, Some(dir), home, JsonOutput, order).value.contexts
    ensures s != "" && NoSlash(s) && s != "index" && Exists(fs, Child(dir, s + ".json"))
  {
    var names := ContextEntries(dir, order);
    var shown := HandleList(fs, Some(dir), home, JsonOutput, order).value.contexts;
    var i :| 0 <= i < |shown| && shown[i] == s;
    var n := names[i];
    assert n in names;
    ListedStem(dir, n);
    assert NoSlash(s) by {
      forall k | 0 <= k < |s| ensures s[k] != '/' { assert s[k] == n[k]; }
    }
  }

  /** Conversely, every such name is shown. */
  lemma ExistingNameListed(fs: Fs, dir: Path, home: Option<Path>, order: seq<string>, s: string)
    requires dir in fs.dirs && Lists(fs, dir, order)
    requires s != "" && NoSlash(s) && s != "index" && Exists(fs, Child(dir, s + ".json"))
    ensures s in HandleList(fs, Some(dir), home, JsonOutput, order).value.contexts
  {
    var names := ContextEntries(dir, order);
    var shown := HandleList(fs, Some(dir), home, JsonOutput, order).value.contexts;
    var n := s + ".json";
    ContextFileComponent(s);
    ContextFileParts(s);
    ContextEntryByName(dir, n);
    JsonNameInjective(s, "index");
    assert n in names;
    var i :| 0 <= i < |names| && names[i] == n;
    assert shown[i] == s;
  }

  /** Which names a JSON-mode listing shows, in terms of the directory alone: the non-empty
      names without a slash, other than `index`, for which `<name>.json` exists. */
  lemma ListShowsExactly(fs: Fs, dir: Path, home: Option<Path>, order: seq<string>)
    requires dir in fs.dirs && Lists(fs, dir, order)
    ensures forall s :: s in HandleList(fs, Some(dir), home, JsonOutput, order).value.contexts
                   <==> s != "" && NoSlash(s) && s != "index" && Exists(fs, Child(dir, s + ".json"))
  {
    forall s ensures s in HandleList(fs, Some(dir), home, JsonOutput, order).value.contexts
                 <==> s != "" && NoSlash(s) && s != "index" && Exists(fs, Child(dir, s + ".json")) {
      if s in HandleList(fs, Some(dir), home, JsonOutput, order).value.contexts {
        ListedNameExists(fs, dir, home, order, s);
      }
      if s != "" && NoSlash(s) && s != "index" && Exists(fs, Child(dir, s + ".json")) {
        ExistingNameListed(fs, dir, home, order, s);
      }
    }
  }

  /** The name a command acts on: the one given, else the prompt's pick, else the empty string. */
  function ResolveName(fs: Fs, dir: Path, contexts: seq<Path>, name: Option<string>, prompt: Prompt): (r: string)
    ensures name.Some? ==> r == name.value
    ensures name.None? ==> r == "" || r in FileStems(contexts)
    ensures name.None? && SelectContext(fs, dir, contexts, prompt).None? ==> r == ""
    ensures name.None? && SelectContext(fs, dir, contexts, prompt).Some? ==>
      r == SelectContext(fs, dir, contexts, prompt).value
  {
    match name
    case Some(n) => n
    case None => SelectContext(fs, dir, contexts, prompt).GetOr("")
  }

  function WithMessage(c: Change<()>, message: string): Change<string> {
    Change(c.fs, if c.result.Ok? then Ok(message) else Err(c.result.error))
  }

  /** `handle_default`: points the index at the resolved name, provided `<dir>/<name>.json`
      is one of the listed contexts; otherwise NotFound, and nothing changes. */
  function HandleDefault(fs: Fs, dirArg: Option<Path>, home: Option<Path>, name: Option<string>,
                         order: seq<string>, prompt: Prompt): (r: Change<string>)
    ensures r.result.Err? ==> r.fs == fs
    ensures r.result.Ok? ==>
      ContextDir(dirArg, home).Ok? &&
      var dir := ContextDir(dirArg, home).value;
      GetContexts(fs, dir, order).Ok? &&
      var contexts := GetContexts(fs, dir, order).value;
      var chosen := ResolveName(fs, dir, contexts, name, prompt);
      && ContextPathFromName(dir, chosen) in contexts
      && Child(dir, IndexJson) in r.fs.files
      && r.fs.files[Child(dir, IndexJson)] == Doc(EncodeIndex(DefaultContext(chosen)))
      && GetIndex(r.fs, dir) == Ok(DefaultContext(chosen))
      && OnlyChanged(fs, r.fs, Child(dir, IndexJson))
    ensures ContextDir(dirArg, home).Ok? && ContextDir(dirArg, home).value in fs.dirs ==>
      var dir := ContextDir(dirArg, home).value;
      var contexts := GetContexts(fs, dir, order).value;
      var target := ContextPathFromName(dir, ResolveName(fs, dir, contexts, name, prompt));
      && (target !in contexts ==> r.result == Err(NotFound(DefaultNotFound)))
      && (target in contexts ==> (r.result.Ok? <==> CanCreate(fs, Child(dir, IndexJson))))
  {
    match ContextDir(dirArg, home)
    case Err(e) => Change(fs, Err(e))
    case Ok(dir) =>
      match GetContexts(fs, dir, order)
      case Err(e) => Change(fs, Err(e))
      case Ok(contexts) =>
        var newDefault := ResolveName(fs, dir, contexts, name, prompt);
        if ContextPathFromName(dir, newDefault) in contexts then
          WithMessage(SetDefaultContext(fs, dir, newDefault), "Set new context successfully")
        else Change(fs, Err(NotFound(DefaultNotFound)))
  }

  /** `default` in an existing directory, one step at a time. */
  lemma DefaultInDir(fs: Fs, dirArg: Option<Path>, home: Option<Path>, dir: Path, name: Option<string>,
                     order: seq<string>, prompt: Prompt)
    requires ContextDir(dirArg, home) == Ok(dir) && dir in fs.dirs
    ensures var contexts := GetContexts(fs, dir, order).value;
      var chosen := ResolveName(fs, dir, contexts, name, prompt);
      HandleDefault(fs, dirArg, home, name, order, prompt)
        == if ContextPathFromName(dir, chosen) in contexts
           then WithMessage(SetDefaultContext(fs, dir, chosen), "Set new context successfully")
           else Change(fs, Err(NotFound(DefaultNotFound)))
  {
  }

  /** With a name given, `default` succeeds exactly when `<name>.json` exists, the name is
      not `index`, and the index file can be written. */
  lemma DefaultByName(fs: Fs, dir: Path, home: Option<Path>, name: string, order: seq<string>, prompt: Prompt)
    requires dir in fs.dirs && Lists(fs, dir, order)
    requires name != "" && NoSlash(name)
    ensures var r := HandleDefault(fs, Some(dir), home, Some(name), order, prompt);
      r.result.Ok? <==> name != "index" && Exists(fs, Child(dir, name + ".json")) && CanCreate(fs, Child(dir, IndexJson))
    ensures !(name != "index" && Exists(fs, Child(dir, name + ".json"))) ==>
      HandleDefault(fs, Some(dir), home, Some(name), order, prompt) == Change(fs, Err(NotFound(DefaultNotFound)))
  {
    ListedByName(fs, dir, order, name);
    DefaultInDir(fs, Some(dir), home, dir, Some(name), order, prompt);
  }

  /** An aborted or out-of-range selection resolves to the empty name, whose path
      `<dir>/.json` is never listed. */
  lemma AbortedSelectionUnlisted(fs: Fs, dir: Path, order: seq<string>, prompt: Prompt)
    requires dir in fs.dirs
    requires SelectContext(fs, dir, GetContexts(fs, dir, order).value, prompt).None?
    ensures var contexts := GetContexts(fs, dir, order).value;
      ContextPathFromName(dir, ResolveName(fs, dir, contexts, None, prompt)) !in contexts
  {
    assert Component(".json") by {
      assert forall i :: 0 <= i < 5 ==> ".json"[i] != '/';
    }
    JoinComponent(dir, ".json");
    assert "" + ".json" == ".json";
  }

  /** So `default` without a name ends in NotFound and changes nothing when the selection fails. */
  lemma AbortedDefaultNotFound(fs: Fs, dir: Path, home: Option<Path>, order: seq<string>, prompt: Prompt)
    requires dir in fs.dirs
    requires SelectContext(fs, dir, GetContexts(fs, dir, order).value, prompt).None?
    ensures HandleDefault(fs, Some(dir), home, None, order, prompt) == Change(fs, Err(NotFound(DefaultNotFound)))
  {
    AbortedSelectionUnlisted(fs, dir, order, prompt);
  }

  /** And so does `del`. */
  lemma AbortedDelNotFound(fs: Fs, dir: Path, home: Option<Path>, order: seq<string>, prompt: Prompt)
    requires dir in fs.dirs
    requires SelectContext(fs, dir, GetContexts(fs, dir, order).value, prompt).None?
    ensures HandleDel(fs, Some(dir), home, None, order, prompt) == Change(fs, Err(NotFound(DeleteNotFound)))
  {
    AbortedSelectionUnlisted(fs, dir, order, prompt);
  }

  /** `handle_del`: removes `<dir>/<name>.json` when it is one of the listed contexts, and
      nothing else; otherwise NotFound, and nothing changes. */
  function HandleDel(fs: Fs, dirArg: Option<Path>, home: Option<Path>, name: Option<string>,
                     order: seq<string>, prompt: Prompt): (r: Change<string>)
    ensures r.result.Err? ==> r.fs == fs
    ensures r.result.Ok? ==>
      ContextDir(dirArg, home).Ok? &&
      var dir := ContextDir(dirArg, home).value;
      GetContexts(fs, dir, order).Ok? &&
      var contexts := GetContexts(fs, dir, order).value;
      var target := ContextPathFromName(dir, ResolveName(fs, dir, contexts, name, prompt));
      && target in contexts
      && target in fs.files
      && r.fs == Fs(fs.dirs, fs.files - {target})
    ensures ContextDir(dirArg, home).Ok? && ContextDir(dirArg, home).value in fs.dirs ==>
      var dir := ContextDir(dirArg, home).value;
      var contexts := GetContexts(fs, dir, order).value;
      var target := ContextPathFromName(dir, ResolveName(fs, dir, contexts, name, prompt));
      && (target !in contexts ==> r.result == Err(NotFound(DeleteNotFound)))
      && (target in contexts ==> (r.result.Ok? <==> target in fs.files))
  {
    match ContextDir(dirArg, home)
    case Err(e) => Change(fs, Err(e))
    case Ok(dir) =>
      match GetContexts(fs, dir, order)
      case Err(e) => Change(fs, Err(e))
      case Ok(contexts) =>
        var path := ContextPathFromName(dir, ResolveName(fs, dir, contexts, name, prompt));
        if path in contexts then WithMessage(RemoveFile(fs, path), "Removed file successfully")
        else Change(fs, Err(NotFound(DeleteNotFound)))
  }

  /** With a name given, `del` removes exactly the file `<name>.json` when it exists and the
      name is not `index`; a directory of that name is listed but cannot be removed. */
  lemma DelByName(fs: Fs, dir: Path, home: Option<Path>, name: string, order: seq<string>, prompt: Prompt)
    requires dir in fs.dirs && Lists(fs, dir, order)
    requires name != "" && NoSlash(name)
    ensures var r := HandleDel(fs, Some(dir), home, Some(name), order, prompt);
      && (r.result.Ok? <==> name != "index" && Child(dir, name + ".json") in fs.files)
      && (r.result.Ok? ==> r.fs.files == fs.files - {Child(dir, name + ".json")} && r.fs.dirs == fs.dirs)
      && (r.result.Err? ==> r.fs == fs)
  {
    var target := Child(dir, name + ".json");
    ContextPathRoundTrip(dir, name);
    ListedByName(fs, dir, order, name);
    DelInDir(fs, Some(dir), home, dir, Some(name), order, prompt);
    var r := RemoveFile(fs, target);
  }

  /** `del` in an existing directory, one step at a time. */
  lemma DelInDir(fs: Fs, dirArg: Option<Path>, home: Option<Path>, dir: Path, name: Option<string>,
                 order: seq<string>, prompt: Prompt)
    requires ContextDir(dirArg, home) == Ok(dir) && dir in fs.dirs
    ensures var contexts := GetContexts(fs, dir, order).value;
      var path := ContextPathFromName(dir, ResolveName(fs, dir, contexts, name, prompt));
      HandleDel(fs, dirArg, home, name, order, prompt)
        == if path in contexts then WithMessage(RemoveFile(fs, path), "Removed file successfully")
           else Change(fs, Err(NotFound(DeleteNotFound)))
  {
  }

  /** The file `new` writes: the sanitised `<name>.json` inside the context directory. */
  function NewContextPath(dir: Path, name: string, sanitize: string -> string): (r: Path)
    ensures Component(sanitize(name + ".json")) ==> r == Child(dir, sanitize(name + ".json"))
    ensures IsAbsolute(sanitize(name + ".json")) ==> r.absolute && r.comps == Comps(sanitize(name + ".json"))
  {
    JoinSingle(dir, sanitize(name + ".json"));
    Join(dir, sanitize(name + ".json"))
  }

  /** `handle_new`: writes `WashContext::default()` to the sanitised file name, replacing
      whatever was there; there is no "already exists" check and no other file changes. */
  function HandleNew(fs: Fs, dirArg: Option<Path>, home: Option<Path>, name: string, sanitize: string -> string)
    : (r: Change<string>)
    ensures r.result.Err? ==> r.fs == fs
    ensures r.result.Ok? <==>
      ContextDir(dirArg, home).Ok? && CanCreate(fs, NewContextPath(ContextDir(dirArg, home).value, name, sanitize))
    ensures r.result.Ok? ==>
      var p := NewContextPath(ContextDir(dirArg, home).value, name, sanitize);
      && p in r.fs.files
      && OnlyChanged(fs, r.fs, p)
  {
    match ContextDir(dirArg, home)
    case Err(e) => Change(fs, Err(e))
    case Ok(dir) =>
      var sanitized := sanitize(name + ".json");
      var written := WriteFile(fs, Join(dir, sanitized), Doc(EncodeContext(Default())));
      WithMessage(written, "Created context " + sanitized + " with default values")
  }

  /** `new` in a given directory, one step at a time. */
  lemma NewInDir(fs: Fs, dirArg: Option<Path>, home: Option<Path>, dir: Path, name: string, sanitize: string -> string)
    requires ContextDir(dirArg, home) == Ok(dir)
    ensures HandleNew(fs, dirArg, home, name, sanitize)
         == WithMessage(WriteFile(fs, NewContextPath(dir, name, sanitize), Doc(EncodeContext(Default()))),
                        "Created context " + sanitize(name + ".json") + " with default values")
  {
  }

  /** The file `new` writes loads back as `WashContext::default()`. */
  lemma NewLoadsDefault(fs: Fs, dirArg: Option<Path>, home: Option<Path>, dir: Path, name: string,
                        sanitize: string -> string)
    requires ContextDir(dirArg, home) == Ok(dir) && CanCreate(fs, NewContextPath(dir, name, sanitize))
    ensures LoadContext(HandleNew(fs, dirArg, home, name, sanitize).fs, NewContextPath(dir, name, sanitize))
         == Ok(Default())
  {
    var p := NewContextPath(dir, name, sanitize);
    var content := Doc(EncodeContext(Default()));
    NewInDir(fs, dirArg, home, dir, name, sanitize);
    var fs' := WriteFile(fs, p, content).fs;
    assert HandleNew(fs, dirArg, home, name, sanitize).fs == fs';
    assert p in fs'.files && fs'.files[p] == content;
  }

  /** Creating the same context twice leaves the same filesystem as creating it once. */
  lemma NewIsIdempotent(fs: Fs, dirArg: Option<Path>, home: Option<Path>, name: string, sanitize: string -> string)
    ensures var once := HandleNew(fs, dirArg, home, name, sanitize);
      HandleNew(once.fs, dirArg, home, name, sanitize).fs == once.fs
  {
    if ContextDir(dirArg, home).Ok? {
      var dir := ContextDir(dirArg, home).value;
      var p := NewContextPath(dir, name, sanitize);
      var content := Doc(EncodeContext(Default()));
      var once := HandleNew(fs, dirArg, home, name, sanitize);
      NewInDir(fs, dirArg, home, dir, name, sanitize);
      assert once.fs == WriteFile(fs, p, content).fs;
      NewInDir(once.fs, dirArg, home, dir, name, sanitize);
      assert HandleNew(once.fs, dirArg, home, name, sanitize).fs == WriteFile(once.fs, p, content).fs;
      WriteFileTwice(fs, p, content);
    }
  }

  /** `new` discards the previous content of the file it writes. */
  lemma NewReplacesContent(fs: Fs, dirArg: Option<Path>, home: Option<Path>, name: string, sanitize: string -> string,
                           previous: FileContent)
    requires ContextDir(dirArg, home).Ok?
    requires CanCreate(fs, NewContextPath(ContextDir(dirArg, home).value, name, sanitize))
    ensures var p := NewContextPath(ContextDir(dirArg, home).value, name, sanitize);
      var before := Fs(fs.dirs, fs.files[p := previous]);
      HandleNew(before, dirArg, home, name, sanitize).fs == HandleNew(fs, dirArg, home, name, sanitize).fs
  {
    var dir := ContextDir(dirArg, home).value;
    var p := NewContextPath(dir, name, sanitize);
    NewInDir(fs, dirArg, home, dir, name, sanitize);
    NewInDir(Fs(fs.dirs, fs.files[p := previous]), dirArg, home, dir, name, sanitize);
    WriteFileOverwrites(fs, p, previous, Doc(EncodeContext(Default())));
  }

  /** A context called `index` is written over the index file: the default is lost, and the
      new context is never listed. */
  lemma NewIndexClobbersDefault(fs: Fs, dir: Path, home: Option<Path>, sanitize: string -> string, order: seq<string>)
    requires dir in fs.dirs && Child(dir, IndexJson) !in fs.dirs
    requires sanitize(IndexJson) == IndexJson
    ensures var r := HandleNew(fs, Some(dir), home, "index", sanitize);
      && r.result.Ok?
      && GetIndex(r.fs, dir).Err?
      && Child(dir, IndexJson) !in GetContexts(r.fs, dir, order).value
  {
    assert "index" + ".json" == IndexJson;
    IndexPathIsJoin(dir);
    NewInDir(fs, Some(dir), home, dir, "index", sanitize);
    var r := HandleNew(fs, Some(dir), home, "index", sanitize);
    assert r.fs.files[Child(dir, IndexJson)] == Doc(EncodeContext(Default()));
    IndexRejectsContext(Default());
  }

  /** The command `edit` would run: the editor found on the search path, on a context file. */
  datatype EditorRun = EditorRun(editor: Path, file: Path)

  /** `handle_edit` up to spawning the editor. A given name is accepted when anything exists
      at `<dir>/<name>.json` (a metadata check, not list membership); without one the user
      picks from the listed contexts. */
  function HandleEdit(fs: Fs, dirArg: Option<Path>, home: Option<Path>, editor: Option<Path>, name: Option<string>,
                      order: seq<string>, prompt: Prompt): (r: Result<EditorRun, Error>)
    ensures r.Ok? ==> ContextDir(dirArg, home).Ok? && editor.Some? && r.value.editor == editor.value
    ensures ContextDir(dirArg, home).Ok? && editor.Some? && name.Some? ==>
      var path := ContextPathFromName(ContextDir(dirArg, home).value, name.value);
      && (r.Ok? <==> Exists(fs, path))
      && (r.Ok? ==> r.value.file == path)
      && (r.Err? ==> r == Err(NotFound(EditNotFound)))
    ensures ContextDir(dirArg, home).Ok? && editor.Some? && name.None? ==>
      var dir := ContextDir(dirArg, home).value;
      && (r.Ok? <==> GetContexts(fs, dir, order).Ok? && SelectContext(fs, dir, GetContexts(fs, dir, order).value, prompt).Some?)
      && (r.Ok? ==>
            r.value.file == ContextPathFromName(dir, SelectContext(fs, dir, GetContexts(fs, dir, order).value, prompt).value))
  {
    var dir :- ContextDir(dirArg, home);
    if editor.None? then Err(EditorNotFound)
    else
      var ctx :- match name
        case Some(n) => Ok(if Exists(fs, ContextPathFromName(dir, n)) then Some(n) else None)
        case None =>
          var contexts :- GetContexts(fs, dir, order);
          Ok(SelectContext(fs, dir, contexts, prompt));
      match ctx
      case Some(c) => Ok(EditorRun(editor.value, ContextPathFromName(dir, c)))
      case None => Err(NotFound(EditNotFound))
  }

  /** `edit` checks existence where `default` checks list membership: `edit index` opens the
      index file, while `default index` is refused. */
  lemma EditAcceptsIndex(fs: Fs, dir: Path, home: Option<Path>, editor: Path, order: seq<string>, prompt: Prompt)
    requires dir in fs.dirs && Child(dir, IndexJson) in fs.files
    ensures HandleEdit(fs, Some(dir), home, Some(editor), Some("index"), order, prompt)
         == Ok(EditorRun(editor, Child(dir, IndexJson)))
    ensures HandleDefault(fs, Some(dir), home, Some("index"), order, prompt).result == Err(NotFound(DefaultNotFound))
  {
    assert "index" + ".json" == IndexJson;
    IndexPathIsJoin(dir);
  }

  /** A name picked from the prompt turns back into the listed path it came from, when the
      directory yields only plain names. */
  lemma SelectionIsListed(fs: Fs, dir: Path, order: seq<string>, prompt: Prompt)
    requires dir in fs.dirs
    requires forall n :: n in order ==> Plain(n)
    requires SelectContext(fs, dir, GetContexts(fs, dir, order).value, prompt).Some?
    ensures var contexts := GetContexts(fs, dir, order).value;
      ContextPathFromName(dir, ResolveName(fs, dir, contexts, None, prompt)) in contexts
  {
    var contexts := GetContexts(fs, dir, order).value;
    var a := prompt(FileStems(contexts), Highlight(fs, dir));
    StemsRoundTrip(fs, dir, order);
    assert ContextPathFromName(dir, FileStems(contexts)[a.index]) == contexts[a.index];
  }

  /** So `default` without a name, after a successful pick, fails only when the index file
      cannot be written. */
  lemma SelectedDefault(fs: Fs, dir: Path, home: Option<Path>, order: seq<string>, prompt: Prompt)
    requires dir in fs.dirs
    requires forall n :: n in order ==> Plain(n)
    requires SelectContext(fs, dir, GetContexts(fs, dir, order).value, prompt).Some?
    ensures HandleDefault(fs, Some(dir), home, None, order, prompt).result.Ok? <==> CanCreate(fs, Child(dir, IndexJson))
  {
    SelectionIsListed(fs, dir, order, prompt);
  }

  /** After `default` succeeds, `get_default_context` loads the chosen context as it was. */
  lemma DefaultThenGet(fs: Fs, dir: Path, home: Option<Path>, name: Option<string>, order: seq<string>, prompt: Prompt)
    requires dir in fs.dirs
    requires HandleDefault(fs, Some(dir), home, name, order, prompt).result.Ok?
    ensures var contexts := GetContexts(fs, dir, order).value;
      var chosen := ResolveName(fs, dir, contexts, name, prompt);
      GetDefaultContext(HandleDefault(fs, Some(dir), home, name, order, prompt).fs, dir)
        == LoadContext(fs, ContextPathFromName(dir, chosen))
  {
    var contexts := GetContexts(fs, dir, order).value;
    var chosen := ResolveName(fs, dir, contexts, name, prompt);
    var fs' := HandleDefault(fs, Some(dir), home, name, order, prompt).fs;
    var q := ContextPathFromName(dir, chosen);
    assert q in contexts && q != Child(dir, IndexJson);
    LoadContextUnchanged(fs, fs', Child(dir, IndexJson), q);
  }

  lemma DistinctParts(s: seq<string>)
    requires |s| > 0
    ensures Distinct(s) <==> s[0] !in s[1..] && Distinct(s[1..])
  {
    if Distinct(s) {
      forall k | 0 <= k < |s[1..]| ensures s[1..][k] != s[0] {
        assert s[1..][k] == s[k + 1];
      }
      forall i, j | 0 <= i < j < |s[1..]| ensures s[1..][i] != s[1..][j] {
        assert s[1..][i] == s[i + 1] && s[1..][j] == s[j + 1];
      }
    }
    if s[0] !in s[1..] && Distinct(s[1..]) {
      forall i, j | 0 <= i < j < |s| ensures s[i] != s[j] {
        assert s[j] == s[1..][j - 1];
        if i > 0 { assert s[i] == s[1..][i - 1]; }
      }
    }
  }

  /** `order` without the entry `x`. */
  function Without(order: seq<string>, x: string): (r: seq<string>)
    ensures forall n :: n in r <==> n in order && n != x
    ensures Distinct(order) ==> Distinct(r)
  {
    if order == [] then []
    else
      var rest := Without(order[1..], x);
      DistinctParts(order);
      if order[0] == x then rest
      else
        var r := [order[0]] + rest;
        assert r[1..] == rest;
        DistinctParts(r);
        r
  }

  /** After `del name`, reading the directory yields the old entries without `<name>.json`. */
  lemma DelListsRest(fs: Fs, dir: Path, home: Option<Path>, name: string, order: seq<string>, prompt: Prompt)
    requires Valid(fs) && dir in fs.dirs && Lists(fs, dir, order)
    requires name != "" && NoSlash(name)
    requires HandleDel(fs, Some(dir), home, Some(name), order, prompt).result.Ok?
    ensures Lists(HandleDel(fs, Some(dir), home, Some(name), order, prompt).fs, dir, Without(order, name + ".json"))
  {
    var f := name + ".json";
    var fs' := HandleDel(fs, Some(dir), home, Some(name), order, prompt).fs;
    DelByName(fs, dir, home, name, order, prompt);
    forall n | Plain(n)
      ensures n in Without(order, f) <==> Child(dir, n) in fs'.files || Child(dir, n) in fs'.dirs
    {
      ChildInjective(dir, n, f);
    }
  }

  /** Deleting a context removes exactly that name from the listing. */
  lemma DelThenList(fs: Fs, dir: Path, home: Option<Path>, name: string, order: seq<string>, prompt: Prompt)
    requires Valid(fs) && dir in fs.dirs && Lists(fs, dir, order)
    requires name != "" && NoSlash(name)
    requires HandleDel(fs, Some(dir), home, Some(name), order, prompt).result.Ok?
    ensures var fs' := HandleDel(fs, Some(dir), home, Some(name), order, prompt).fs;
      forall s :: s in HandleList(fs', Some(dir), home, JsonOutput, Without(order, name + ".json")).value.contexts
             <==> s in HandleList(fs, Some(dir), home, JsonOutput, order).value.contexts && s != name
  {
    var f := name + ".json";
    var fs' := HandleDel(fs, Some(dir), home, Some(name), order, prompt).fs;
    DelByName(fs, dir, home, name, order, prompt);
    DelListsRest(fs, dir, home, name, order, prompt);
    ListShowsExactly(fs, dir, home, order);
    ListShowsExactly(fs', dir, home, Without(order, f));
    forall s ensures Exists(fs', Child(dir, s + ".json")) <==> Exists(fs, Child(dir, s + ".json")) && s != name {
      ChildInjective(dir, s + ".json", f);
      JsonNameInjective(s, name);
    }
  }

  /** Every handler that changes the filesystem keeps it well formed: `default`, ... */
  lemma DefaultKeepsValid(fs: Fs, dirArg: Option<Path>, home: Option<Path>, name: Option<string>,
                          order: seq<string>, prompt: Prompt)
    requires Valid(fs)
    ensures Valid(HandleDefault(fs, dirArg, home, name, order, prompt).fs)
  {
    var r := HandleDefault(fs, dirArg, home, name, order, prompt);
    if r.result.Ok? {
      var dir := ContextDir(dirArg, home).value;
      var chosen := ResolveName(fs, dir, GetContexts(fs, dir, order).value, name, prompt);
      DefaultInDir(fs, dirArg, home, dir, name, order, prompt);
      assert r.fs == WriteFile(fs, Child(dir, IndexJson), Doc(EncodeIndex(DefaultContext(chosen)))).fs;
      WriteFileValid(fs, Child(dir, IndexJson), Doc(EncodeIndex(DefaultContext(chosen))));
    }
  }

  /** ... `del` ... */
  lemma DelKeepsValid(fs: Fs, dirArg: Option<Path>, home: Option<Path>, name: Option<string>,
                      order: seq<string>, prompt: Prompt)
    requires Valid(fs)
    ensures Valid(HandleDel(fs, dirArg, home, name, order, prompt).fs)
  {
    var r := HandleDel(fs, dirArg, home, name, order, prompt);
    if r.result.Ok? {
      var dir := ContextDir(dirArg, home).value;
      var target := ContextPathFromName(dir, ResolveName(fs, dir, GetContexts(fs, dir, order).value, name, prompt));
      DelInDir(fs, dirArg, home, dir, name, order, prompt);
      RemoveFileValid(fs, target);
    }
  }

  /** ... and `new`. */
  lemma NewKeepsValid(fs: Fs, dirArg: Option<Path>, home: Option<Path>, name: string, sanitize: string -> string)
    requires Valid(fs)
    ensures Valid(HandleNew(fs, dirArg, home, name, sanitize).fs)
  {
    if ContextDir(dirArg, home).Ok? {
      NewInDir(fs, dirArg, home, ContextDir(dirArg, home).value, name, sanitize);
      WriteFileValid(fs, NewContextPath(ContextDir(dirArg, home).value, name, sanitize), Doc(EncodeContext(Default())));
    }
  }

  function ScenarioDir(): Path { Path(true, ["ctx"]) }

  function ScenarioFs(): Fs {
    var dir := ScenarioDir();
    Fs({dir}, map[Child(dir, "dev.json") := Garbled,
                  Child(dir, "notes.txt") := Garbled,
                  Child(dir, IndexJson) := Doc(EncodeIndex(DefaultContext("dev")))])
  }

  /** `dev.json` is a context entry with stem `dev`. */
  lemma DevEntry(dir: Path)
    ensures IsContextEntry(dir, "dev.json") && StemOf("dev.json") == "dev"
  {
    assert Plain("dev.json") by {
      assert forall i :: 0 <= i < 8 ==> "dev.json"[i] != '/';
    }
    ContextEntryByName(dir, "dev.json");
    assert "dev.json"[3..] == ".json";
    JsonExtension("dev.json");
  }

  /** `notes.txt` is not. */
  lemma NotesNoEntry(dir: Path)
    ensures !IsContextEntry(dir, "notes.txt")
  {
    assert Plain("notes.txt") by {
      assert forall i :: 0 <= i < 9 ==> "notes.txt"[i] != '/';
    }
    ContextEntryByName(dir, "notes.txt");
    assert "notes.txt"[4..] != ".json" by {
      assert "notes.txt"[4..][0] == 's';
    }
  }

  lemma EntriesOfOne(dir: Path, n: string)
    ensures ContextEntries(dir, [n]) == if IsContextEntry(dir, n) then [n] else []
  {
    assert [n][1..] == [];
  }

  lemma ScenarioEntries()
    ensures ContextEntries(ScenarioDir(), ["notes.txt", "dev.json", IndexJson]) == ["dev.json"]
    ensures StemOf("dev.json") == "dev"
  {
    var dir := ScenarioDir();
    DevEntry(dir);
    NotesNoEntry(dir);
    EntriesOfOne(dir, "notes.txt");
    EntriesOfOne(dir, "dev.json");
    EntriesOfOne(dir, IndexJson);
    assert ["notes.txt", "dev.json", IndexJson] == ["notes.txt"] + (["dev.json"] + [IndexJson]);
    ContextEntriesAppend(dir, ["dev.json"], [IndexJson]);
    ContextEntriesAppend(dir, ["notes.txt"], ["dev.json"] + [IndexJson]);
  }

  lemma ScenarioIndex()
    ensures GetIndex(ScenarioFs(), ScenarioDir()) == Ok(DefaultContext("dev"))
  {
    IndexPathIsJoin(ScenarioDir());
    IndexRoundTrip("dev");
  }

  /** A text listing of a directory with one context, which the index names. */
  lemma ListSingleDefault(fs: Fs, dir: Path, home: Option<Path>, order: seq<string>, n: string, name: string)
    requires dir in fs.dirs
    requires ContextEntries(dir, order) == [n] && StemOf(n) == name
    requires GetIndex(fs, dir) == Ok(DefaultContext(name))
    ensures HandleList(fs, Some(dir), home, Text, order) == Ok(Listing(dir, [name + DefaultSuffix], name))
  {
    var r := HandleList(fs, Some(dir), home, Text, order);
    assert ContextEntries(dir, order)[0] == n;
    assert r.Ok? && |r.value.contexts| == 1 && r.value.dir == dir && r.value.default == name;
    assert r.value.contexts[0] == name + DefaultSuffix;
    assert r.value == Listing(dir, [name + DefaultSuffix], name);
  }

  /** A directory holding `dev.json`, `notes.txt` and an index naming `dev`: the text listing
      shows `dev` alone, marked as the default. */
  lemma ListScenario(fs: Fs, dir: Path, order: seq<string>)
    requires fs == ScenarioFs() && dir == ScenarioDir() && order == ["notes.txt", "dev.json", IndexJson]
    ensures HandleList(fs, Some(dir), None, Text, order) == Ok(Listing(dir, ["dev" + DefaultSuffix], "dev"))
  {
    ScenarioEntries();
    ScenarioIndex();
    ListSingleDefault(fs, dir, None, order, "dev.json", "dev");
  }

  /** `new name` in a directory with no entries creates `<name>.json`, which is then the
      directory's only entry. */
  lemma NewIntoEmpty(fs: Fs, dir: Path, home: Option<Path>, name: string, sanitize: string -> string)
    requires dir in fs.dirs && Lists(fs, dir, [])
    requires name != "" && NoSlash(name) && sanitize(name + ".json") == name + ".json"
    ensures var r := HandleNew(fs, Some(dir), home, name, sanitize);
      && r.result.Ok?
      && r.fs == Fs(fs.dirs, fs.files[Child(dir, name + ".json") := Doc(EncodeContext(Default()))])
      && Lists(r.fs, dir, [name + ".json"])
  {
    var f := name + ".json";
    ContextFileComponent(name);
    JoinComponent(dir, f);
    assert !Exists(fs, Child(dir, f));
    NewInDir(fs, Some(dir), home, dir, name, sanitize);
    var fs1 := HandleNew(fs, Some(dir), home, name, sanitize).fs;
    forall n | Plain(n) ensures n in [f] <==> Child(dir, n) in fs1.files || Child(dir, n) in fs1.dirs {
      ChildInjective(dir, n, f);
    }
  }

  /** A listing that succeeded and shows exactly `names`. */
  predicate Shows(r: Result<Listing, Error>, names: seq<string>) {
    r.Ok? && r.value.contexts == names
  }

  /** A directory whose only entry is `<name>.json` lists `name` alone. */
  lemma ListOnlyEntry(fs: Fs, dir: Path, home: Option<Path>, name: string)
    requires dir in fs.dirs
    requires name != "" && NoSlash(name) && name != "index"
    ensures Shows(HandleList(fs, Some(dir), home, JsonOutput, [name + ".json"]), [name])
  {
    var f := name + ".json";
    ContextFileComponent(name);
    ContextFileParts(name);
    ContextEntryByName(dir, f);
    JsonNameInjective(name, "index");
    assert [f][1..] == [];
    assert ContextEntries(dir, [f]) == [f];
  }

  lemma HeadIn(xs: seq<string>)
    ensures xs != [] ==> xs[0] in xs
  {
  }

  /** A listing of a directory whose only context-like entry is the index is empty. */
  lemma ListOnlyIndex(fs: Fs, dir: Path, home: Option<Path>, order: seq<string>)
    requires dir in fs.dirs && Lists(fs, dir, order)
    requires forall n :: Plain(n) && n != IndexJson ==> !Exists(fs, Child(dir, n))
    ensures Shows(HandleList(fs, Some(dir), home, JsonOutput, order), [])
  {
    var shown := HandleList(fs, Some(dir), home, JsonOutput, order).value.contexts;
    forall s | s in shown ensures false {
      ListedNameExists(fs, dir, home, order, s);
      ContextFileComponent(s);
      JsonNameInjective(s, "index");
    }
    HeadIn(shown);
  }

  /** Entries of `dir` other than `<name>.json` and the index. */
  ghost predicate OnlyContextAndIndex(fs: Fs, dir: Path, name: string) {
    forall n :: Plain(n) && n != name + ".json" && n != IndexJson ==> !Exists(fs, Child(dir, n))
  }

  /** `default name` right after `new name` in an empty directory. */
  lemma DefaultAfterNew(fs1: Fs, dir: Path, home: Option<Path>, name: string, prompt: Prompt)
    requires dir in fs1.dirs && Lists(fs1, dir, [name + ".json"])
    requires name != "" && NoSlash(name) && name != "index"
    requires Child(dir, name + ".json") in fs1.files && Child(dir, name + ".json") !in fs1.dirs
    ensures var r := HandleDefault(fs1, Some(dir), home, Some(name), [name + ".json"], prompt);
      && r.result.Ok?
      && GetIndex(r.fs, dir) == Ok(DefaultContext(name))
      && Child(dir, name + ".json") in r.fs.files && Child(dir, name + ".json") !in r.fs.dirs
      && OnlyContextAndIndex(r.fs, dir, name)
  {
    var f := name + ".json";
    var idx := Child(dir, IndexJson);
    assert Plain(IndexJson) by {
      assert forall i :: 0 <= i < 10 ==> IndexJson[i] != '/';
    }
    ContextFileComponent(name);
    JsonNameInjective(name, "index");
    assert idx !in fs1.dirs;
    DefaultByName(fs1, dir, home, name, [f], prompt);
    DefaultInDir(fs1, Some(dir), home, dir, Some(name), [f], prompt);
    var r := HandleDefault(fs1, Some(dir), home, Some(name), [f], prompt);
    ChildInjective(dir, f, IndexJson);
    assert OnlyChanged(fs1, r.fs, idx);
    OnlyIndexAdded(fs1, r.fs, dir, name);
  }

  /** Writing the index beside a lone `<name>.json` leaves just those two entries. */
  lemma OnlyIndexAdded(fs1: Fs, fs2: Fs, dir: Path, name: string)
    requires Lists(fs1, dir, [name + ".json"])
    requires OnlyChanged(fs1, fs2, Child(dir, IndexJson))
    ensures OnlyContextAndIndex(fs2, dir, name)
  {
    forall n | Plain(n) && n != name + ".json" && n != IndexJson ensures !Exists(fs2, Child(dir, n)) {
      ChildInjective(dir, n, IndexJson);
    }
  }

  /** `del name` when only `<name>.json` and the index exist: the listing becomes empty and
      the index is left as it was. */
  lemma DelLastContext(fs2: Fs, dir: Path, home: Option<Path>, name: string, prompt: Prompt,
                       order2: seq<string>, order3: seq<string>)
    requires dir in fs2.dirs && Lists(fs2, dir, order2)
    requires name != "" && NoSlash(name) && name != "index"
    requires Child(dir, name + ".json") in fs2.files && Child(dir, name + ".json") !in fs2.dirs
    requires OnlyContextAndIndex(fs2, dir, name)
    ensures var r := HandleDel(fs2, Some(dir), home, Some(name), order2, prompt);
      && r.result.Ok?
      && GetIndex(r.fs, dir) == GetIndex(fs2, dir)
      && (Lists(r.fs, dir, order3) ==> Shows(HandleList(r.fs, Some(dir), home, JsonOutput, order3), []))
  {
    var f := name + ".json";
    var idx := Child(dir, IndexJson);
    DelByName(fs2, dir, home, name, order2, prompt);
    var r := HandleDel(fs2, Some(dir), home, Some(name), order2, prompt);
    JsonNameInjective(name, "index");
    ChildInjective(dir, f, IndexJson);
    GetIndexUnchanged(fs2, r.fs, dir);
    if Lists(r.fs, dir, order3) {
      forall n | Plain(n) && n != IndexJson ensures !Exists(r.fs, Child(dir, n)) {
        ChildInjective(dir, n, f);
      }
      ListOnlyIndex(r.fs, dir, home, order3);
    }
  }

  /** The life of one context, from an empty directory: `new`, `list`, `default`, `del`,
      `list`. The index still names the deleted context afterwards: nothing keeps the
      default pointing at an existing file. */
  lemma EndToEnd(fs: Fs, dir: Path, home: Option<Path>, name: string, sanitize: string -> string, prompt: Prompt,
                 order2: seq<string>, order3: seq<string>)
    requires dir in fs.dirs && Lists(fs, dir, [])
    requires name != "" && NoSlash(name) && name != "index" && sanitize(name + ".json") == name + ".json"
    ensures var f := name + ".json";
      var fs1 := HandleNew(fs, Some(dir), home, name, sanitize).fs;
      var fs2 := HandleDefault(fs1, Some(dir), home, Some(name), [f], prompt).fs;
      var fs3 := HandleDel(fs2, Some(dir), home, Some(name), order2, prompt).fs;
      && HandleNew(fs, Some(dir), home, name, sanitize).result.Ok?
      && Shows(HandleList(fs1, Some(dir), home, JsonOutput, [f]), [name])
      && HandleDefault(fs1, Some(dir), home, Some(name), [f], prompt).result.Ok?
      && GetIndex(fs2, dir) == Ok(DefaultContext(name))
      && (Lists(fs2, dir, order2) ==>
            && HandleDel(fs2, Some(dir), home, Some(name), order2, prompt).result.Ok?
            && GetIndex(fs3, dir) == Ok(DefaultContext(name))
            && (Lists(fs3, dir, order3) ==> Shows(HandleList(fs3, Some(dir), home, JsonOutput, order3), [])))
  {
    var f := name + ".json";
    ContextFileComponent(name);
    assert Child(dir, f) !in fs.dirs;
    NewIntoEmpty(fs, dir, home, name, sanitize);
    var fs1 := HandleNew(fs, Some(dir), home, name, sanitize).fs;
    assert Child(dir, f) in fs1.files && Child(dir, f) !in fs1.dirs;
    ListOnlyEntry(fs1, dir, home, name);
    DefaultAfterNew(fs1, dir, home, name, prompt);
    var fs2 := HandleDefault(fs1, Some(dir), home, Some(name), [f], prompt).fs;
    if Lists(fs2, dir, order2) {
      DelLastContext(fs2, dir, home, name, prompt, order2, order3);
    }
  }
}
