# wash `ctx`: the context store, modelled in Dafny

`wash ctx` manages named connection profiles ("contexts") for a wasmCloud lattice. Each
context is a JSON file `<name>.json` in a context directory: the directory given on the
command line, or `$HOME/.wash/contexts`. That directory also holds an `index.json` naming
the default context. The subcommands are:

- `list` shows the contexts and marks the default one;
- `default` points the index at a context;
- `del` removes a context file;
- `new` writes a context with default values;
- `edit` opens a context file in an editor.

The model has six modules:

- `Results`: `Option` and `Result`, with early return through `:-`.
- `Paths`: paths as the standard library's `Path` sees them. A path is a root flag and a
  list of components. `join` drops empty and `.` pieces, and an absolute argument replaces
  the base. `file_name`, `file_stem` and `extension` split a name at its last dot; `..` is
  not split, and a dotfile such as `.json` has no extension.
- `Json`: JSON values. An object keeps its members in order, duplicates included.
- `Context`: the index record `DefaultContext` and the profile `WashContext`, with their
  encodings. Decoding behaves like a derived serde `Deserialize`:
  - unknown keys are skipped;
  - a known key given twice is an error;
  - a missing `String`/`u64` field takes its `default = "..."` helper's value;
  - a missing `Option` field is `None`;
  - `u64` is range-checked.
- `Store`: the functions of `src/ctx/mod.rs` that touch the directory. The filesystem is a
  value `Fs(dirs, files)`, and a file holds either a JSON document or garbage.
- `Handlers`: the `list`, `default`, `del`, `new` and `edit` handlers. Each is a pure
  function from the filesystem and the command's inputs to the new filesystem and a result.

Everything the code learns from outside arrives as a parameter:

- the order in which reading the directory yields its entries (`order`);
- the user's answer to the choice prompt (`prompt`, a function of the choices and the
  highlighted default);
- the home directory;
- the editor found on the search path;
- the file-name sanitiser (`sanitize`), about which nothing is assumed.

The predicate `Lists(fs, dir, order)` says that `order` is an honest directory reading.

Behaviours of the code that the lemmas make explicit:

- `default` and `del` check that the target is among the listed contexts (`Vec::contains`
  on paths). `edit` with a name only checks that something exists at `<name>.json`. So
  `edit index` opens the index file, while `default index` is refused
  (`Handlers.EditAcceptsIndex`).
- `new index` writes a context record over `index.json`. Afterwards the index cannot be
  read, and the default is lost (`Handlers.NewIndexClobbersDefault`).
- `new` has no "already exists" check: it replaces whatever the file held
  (`Handlers.NewReplacesContent`).
- An aborted or out-of-range prompt yields the empty name. Its path `<dir>/.json` is never
  listed, because `.json` has no extension, so `default` and `del` end in NotFound
  (`Handlers.AbortedDefaultNotFound`).
- After `del`, the index may still name the deleted context (`Handlers.EndToEnd`).

The ports `ctl_port` and `rpc_port` are strings in `WashContext`, and the model keeps them
as strings.

## Model

| member | source | states |
|---|---|---|
| Context.Default | src/ctx/context.rs:47-66 | The rpc transport mirrors the ctl transport. Every optional field is None. Host, port, timeout and lattice prefix are the named defaults. |
| Context.EmptyDecodesToDefault | src/ctx/context.rs:19-66 | An empty JSON object decodes to the default record: every field falls back to its serde default. |
| Context.DecodeContext | src/ctx/context.rs:19-45 | A document decodes iff it is an object in which every known field appears at most once and has its declared type. |
| Context.DecodeTransport | src/ctx/context.rs:23-44 | One transport's six fields decode iff each appears at most once with the right type. |
| Context.AsString | src/ctx/context.rs:23-26 | A defaulted string field is accepted iff it is absent or a string. |
| Context.AsOptString | src/ctx/context.rs:27-29 | An optional string field is accepted iff it is absent, null or a string. |
| Context.AsU64 | src/ctx/context.rs:30-31 | A `u64` field is accepted iff it is absent or a number within 0..2^64. |
| Context.DecodeEncode | src/ctx/context.rs:19-45 | Serialising any context and deserialising the result gives the same context back. |
| Context.EncodeContextKeys | src/ctx/context.rs:19-45 | The derived `Serialize` writes every field, `None` included, under its JSON key and in declaration order. |
| Context.DecodeFound | src/ctx/context.rs:19-45 | A document holding each field exactly once, with a value of its type, decodes to the record of those values. |
| Context.DecodeIgnoresUnknownKeys | src/ctx/context.rs:19-20 | Members under keys that are not fields of the record do not change the decoding result. |
| Context.DecodeMissingFields | src/ctx/context.rs:21-44 | In a decodable document, each absent field is None or takes its serde default helper's value. |
| Context.DecodePresentFields | src/ctx/context.rs:21-44 | In a decodable document, each field that is present occurs once, and the decoded field is its value: the string for a `String`, the number for a `u64`, and for an `Option` the string or `None` for `null`. |
| Context.TransportPresentFields | src/ctx/context.rs:23-31 | The same for the six fields of one transport. |
| Context.TransportMissingFields | src/ctx/context.rs:70-84 | An absent host, port or timeout takes the value of `default_nats_host`, `default_nats_port` or `default_timeout`. An absent credential is None. |
| Context.DecodeIndex | src/ctx/context.rs:8-11 | An index document decodes iff it is an object with exactly one `name` member and that member is a string. |
| Context.EncodeIndex | src/ctx/context.rs:7-11 | The index record serialises to an object with the single member `name` holding the name, and that object decodes back to the record. |
| Context.IndexRoundTrip | src/ctx/context.rs:13-17 | The record `DefaultContext::new(name)` serialises to `{"name": name}` and reads back as itself. |
| Context.IndexRejectsContext | src/ctx/mod.rs:288-293 | A context record read as an index fails for lack of `name`. |
| Paths.JsonExtension | src/ctx/mod.rs:332 | A name's extension is `json` iff it is at least one character followed by `.json`. Its stem is then the name without `.json`. |
| Paths.ContextFileParts | src/ctx/mod.rs:382-384 | For a non-empty name, `<name>.json` has extension `json` and stem `name`. |
| Store.WriteFile | src/ctx/mod.rs:299 | Creating a file succeeds iff its parent directory exists and it is not a directory. On success it holds the content; on failure nothing changes. No other file changes either way. |
| Store.ContextEntryByName | src/ctx/mod.rs:332-336 | `IsContextEntry`, the filter `get_contexts` applies: a directory entry counts as a context iff its name ends in `.json` after a non-empty stem and is not `index.json`. |
| Store.ContextEntries | src/ctx/mod.rs:326-342 | The selected entries are exactly the context entries of the reading. |
| Store.ContextEntriesAppend | src/ctx/mod.rs:327-342 | Selection keeps the order of the directory reading. |
| Store.GetContexts | src/ctx/mod.rs:317-343 | Reading succeeds iff the directory exists. `<dir>/n` is returned iff `n` is a context entry of the reading. `index.json` and `.json` are never returned. |
| Store.FileStems | src/ctx/mod.rs:346-357 | One stem per path: no element is dropped. |
| Store.StemsRoundTrip | src/ctx/mod.rs:346-357 | Turning a listed path's stem back into a context path gives that path. |
| Store.ContextPathRoundTrip | src/ctx/mod.rs:382-384 | For a non-empty name without a slash, the context path is the entry `<name>.json` of the directory. Its stem is the name and its extension is `json`. |
| Store.ContextPathFromName | src/ctx/mod.rs:382-384 | For a name without a slash, the context path is the entry `<name>.json` of the directory itself. |
| Store.ContextDir | src/ctx/mod.rs:361-379 | The directory is the given one, else `<home>/.wash/contexts`. Without either it is a NotFound error. |
| Store.HomeContextDir | src/ctx/mod.rs:372 | Joining `.wash/contexts` to the home directory adds the two components `.wash` and `contexts`. |
| Store.IndexPathIsJoin | src/ctx/mod.rs:288 | `context_dir.join(INDEX_JSON)` names the entry `index.json` of the directory, the path that `get_index` and `set_default_context` use. |
| Store.ReadDoc | src/ctx/mod.rs:310-312 | Reading succeeds iff the file exists and holds a JSON document. |
| Store.GetIndex | src/ctx/mod.rs:288-293 | Reading the index succeeds iff `index.json` exists and holds a document that decodes as the index record, and the result is that record. |
| Store.GetIndexUnchanged | src/ctx/mod.rs:288-293 | Changes to files other than `index.json` do not affect the index. |
| Store.SetDefaultContext | src/ctx/mod.rs:296-300 | Setting the default succeeds iff `index.json` can be created. The file then holds exactly the record `{"name": name}`, whatever it held before, and the index reads back as the given name, whether or not that context exists. Nothing else changes. |
| Store.LoadContext | src/ctx/mod.rs:309-314 | Loading succeeds iff the file exists and holds a document that decodes as a context, and the result is that decoding. A file written from a context loads as that context. |
| Store.LoadEmptyIsDefault | src/ctx/mod.rs:309-314 | A file holding `{}` loads as `WashContext::default()`. |
| Store.LoadContextUnchanged | src/ctx/mod.rs:309-314 | A change confined to another file does not affect loading. |
| Store.GetDefaultContext | src/ctx/mod.rs:303-306 | Fails when the index is missing, and when the named context file is missing. Succeeds iff the index reads and the named context loads, and the result is the context loaded from `<dir>/<name>.json` for the name the index holds. |
| Store.SelectContext | src/ctx/mod.rs:269-285 | The selection is a name iff the prompt picks a position within the list. That name is the stem of the path at that position. |
| Store.Highlight | src/ctx/mod.rs:270 | The prompt highlights a choice iff the index reads, and the highlighted choice is the name the index holds. |
| Store.HighlightAfterDefault | src/ctx/mod.rs:270 | After the default is set, the prompt highlights the new default. |
| Store.WriteFileTwice | src/ctx/mod.rs:228 | Writing the same content twice is the same as writing it once. |
| Store.WriteFileOverwrites | src/ctx/mod.rs:228 | A file's previous content does not affect the result of writing it. |
| Store.WriteFileValid | src/ctx/mod.rs:228 | A write keeps the filesystem well formed. |
| Handlers.HandleList | src/ctx/mod.rs:130-158 | Listing succeeds iff the directory resolves and exists. There is one entry per context file, in reading order, and each entry is that file's stem. In text mode with a readable index, exactly the entries equal to the index name get ` (default)`. The `default` field is the index name, or `N/A`. |
| Handlers.MarkDefault | src/ctx/mod.rs:136-145 | Every entry equal to the default name gains ` (default)`; every other entry is kept as it is; none is added, dropped or moved. |
| Handlers.ListNeverShowsIndex | src/ctx/mod.rs:128-133 | `index` is never shown, in either output form. |
| Handlers.ListShowsExactly | src/ctx/mod.rs:128-133 | For an honest reading, the names shown in the JSON form are exactly the non-empty names other than `index` without a slash for which `<name>.json` exists. |
| Handlers.ListSingleDefault | src/ctx/mod.rs:135-147 | A directory with a single context, which the index names, lists as that name with ` (default)`. |
| Handlers.ListScenario | src/ctx/mod.rs:130-158 | With `dev.json`, `notes.txt` and an index naming `dev`, the text listing is `dev (default)` alone. |
| Handlers.ListedByName | src/ctx/mod.rs:169 | For a simple name, `<dir>/<name>.json` is among the listed contexts iff `<name>.json` exists and the name is not `index`. |
| Handlers.HandleDefault | src/ctx/mod.rs:161-184 | On success the resolved target was listed, `index.json` holds exactly the record naming it, and only `index.json` changed. An unlisted target gives NotFound with the source's message. A listed target succeeds iff `index.json` can be created. Any failure leaves the filesystem unchanged. |
| Handlers.DefaultByName | src/ctx/mod.rs:165-171 | With a name given, `default` succeeds iff `<name>.json` exists, the name is not `index`, and the index can be written. If `<name>.json` does not exist or the name is `index`, it is NotFound; every failure leaves the filesystem unchanged. |
| Handlers.AbortedSelectionUnlisted | src/ctx/mod.rs:165-167 | When the prompt fails, the resolved name is empty and its path is never listed. |
| Handlers.ResolveName | src/ctx/mod.rs:165-167 | A given name is used as it is. Without one, the name is the stem the user picked, or the empty string when the prompt fails (`unwrap_or_default`). |
| Handlers.AbortedDefaultNotFound | src/ctx/mod.rs:177-183 | `default` with a failed prompt is NotFound and changes nothing. |
| Handlers.AbortedDelNotFound | src/ctx/mod.rs:204-210 | `del` with a failed prompt is NotFound and changes nothing. |
| Handlers.SelectionIsListed | src/ctx/mod.rs:280-281 | For an honest reading, a picked name converts back to one of the listed paths. |
| Handlers.SelectedDefault | src/ctx/mod.rs:165-171 | After a successful pick, `default` fails only when the index cannot be written. |
| Handlers.DefaultThenGet | src/ctx/mod.rs:303-306 | After `default` succeeds, `get_default_context` loads the chosen context as it was before. |
| Store.RemoveFile | src/ctx/mod.rs:198 | Removal succeeds iff the path is a file. It removes that file alone; on failure nothing changes. |
| Handlers.HandleDel | src/ctx/mod.rs:187-211 | On success the target was listed and was a file, and the new filesystem is the old one without it. An unlisted target gives NotFound. A listed target succeeds iff it is a file. Any failure leaves the filesystem unchanged. |
| Handlers.DelByName | src/ctx/mod.rs:195-198 | With a name given, `del` succeeds iff `<name>.json` is a file and the name is not `index`. It then removes exactly that file. |
| Handlers.DelListsRest | src/ctx/mod.rs:198 | After `del`, reading the directory gives the old entries without `<name>.json`. |
| Handlers.DelThenList | src/ctx/mod.rs:187-211 | After `del name`, the names listed are the previous ones without `name`. |
| Handlers.HandleNew | src/ctx/mod.rs:214-235 | `new` succeeds iff the sanitised `<name>.json` can be created in the resolved directory. The file then exists, and no other file changes. On failure nothing changes. |
| Handlers.NewContextPath | src/ctx/mod.rs:218-227 | When the sanitised file name is a single path component, the new file is that entry of the directory. When it is absolute, `join` discards the directory. |
| Handlers.NewLoadsDefault | src/ctx/mod.rs:216-229 | The file `new` writes loads back as `WashContext::default()`. |
| Handlers.NewIsIdempotent | src/ctx/mod.rs:228 | Running `new` twice with the same name leaves the same filesystem as running it once. |
| Handlers.NewReplacesContent | src/ctx/mod.rs:228 | Whatever the file held before, `new` leaves the same filesystem: there is no merge and no "already exists" check. |
| Handlers.NewIndexClobbersDefault | src/ctx/mod.rs:218-228 | `new index` succeeds by overwriting `index.json` with a context record. Afterwards the index cannot be read. |
| Handlers.NewIntoEmpty | src/ctx/mod.rs:214-229 | In an empty directory, `new name` creates `<name>.json`, which becomes the directory's only entry. |
| Handlers.ListOnlyEntry | src/ctx/mod.rs:130-147 | A directory whose reading is just `<name>.json` lists `[name]`. |
| Handlers.ListOnlyIndex | src/ctx/mod.rs:130-147 | A directory with no entry but the index lists nothing. |
| Handlers.DefaultAfterNew | src/ctx/mod.rs:161-171 | `default name` right after `new name` succeeds. The index then names it, and only it and the index exist. |
| Handlers.DelLastContext | src/ctx/mod.rs:187-198 | Deleting the only context leaves an empty listing and an unchanged index. |
| Handlers.EndToEnd | src/ctx/mod.rs:130-235 | From an empty directory, `new name` then `list` gives `[name]`. `default name` then makes the index name it. `del name` then gives an empty listing while the index still names the deleted context. |
| Handlers.HandleEdit | src/ctx/mod.rs:238-265 | With a name, `edit` succeeds iff something exists at `<name>.json`, and it opens that path; otherwise NotFound. Without a name, it succeeds iff the directory reads and the prompt picks a listed position, and it opens the context path of the picked name. The editor run is the one found on the search path. |
| Handlers.EditAcceptsIndex | src/ctx/mod.rs:242-246 | `edit index` opens `index.json`, while `default index` is NotFound. |
| Handlers.DefaultKeepsValid | src/ctx/mod.rs:296-300 | `default` keeps the filesystem well formed. |
| Handlers.DelKeepsValid | src/ctx/mod.rs:198 | `del` keeps the filesystem well formed. |
| Handlers.NewKeepsValid | src/ctx/mod.rs:228 | `new` keeps the filesystem well formed. |

## Left out

- The command-line layer (`src/ctx/mod.rs` lines 16-126: argument structs and dispatch) is
  not modelled; the handlers take its values as parameters. `src/ctx.rs` is only a module
  stub.
- Output rendering (`format_output`, the text header, `{"success": true}`) is not modelled.
  `list` returns the names and the `default` field it would render, and the other handlers
  return their message.
- The choice prompt is an oracle `prompt`. Its terminal interaction, and the prompt message
  passed to it, are not modelled.
- `which` and spawning the editor are left out. `edit` returns the editor and the file it
  would run on, and the editor's exit status is not modelled.
- `sanitize_filename` is a parameter about which nothing is assumed. Lemmas that need a
  file name to survive sanitising say so in their preconditions.
- `context_dir`'s best-effort `create_dir` is left out. The handlers take the filesystem as
  it stands after that attempt, whose outcome the code ignores.
- Operating-system failures of `File::create` and `remove_file` (permissions, a read-only
  filesystem, a full disk) are not modelled. Creating a file fails only when its parent is
  not a directory or the path is a directory, and removing fails only when the path is not a
  file. Every success condition built on `Store.WriteFile` and `Store.RemoveFile` carries
  this simplification.
- I/O error kinds and messages are collapsed into the `Store.Error` cases. Which of several
  decoding errors serde would report first is not modelled: decoding failures all become
  `Malformed`.
- Symbolic links, `..` resolution and current-directory prefixes of relative paths are not
  modelled. Path equality is component equality, which is what `PathBuf` comparison does.
- Directory entries that cannot be read (`Err` items of the directory iterator) are not
  modelled: the reading `order` only holds entries.
- Bytes that are not UTF-8, in file names or in file contents, are not modelled.
  `FileContent.Garbled` stands for any content that does not parse.
- Store.FileStems: states only that no element is dropped. Strings here are always
  Unicode, so `into_string().ok()` never fails. What each element is follows from
  `Handlers.HandleList` and `Store.StemsRoundTrip`.
- serde's acceptance of a JSON array in field order, as an alternative to an object, is not
  modelled: an array is rejected like any non-object.
- Fractional JSON numbers are not modelled (`Json.JNum` holds an integer).
- Writing after a successful `File::create` is assumed not to fail. The zero-length file
  such a failure could leave behind is not modelled.
- The default host, port, timeout and lattice prefix live in the tool's `util` module, which
  is not part of this model. They are named constants whose values no proof depends on.
- Concurrent invocations racing on the same directory are not modelled.
