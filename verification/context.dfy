/** The two records the context store persists (`src/ctx/context.rs`): the index record
    naming the default context, and the connection profile `WashContext`, together with
    their JSON encodings. Decoding follows a derived serde `Deserialize` for a struct
    without `deny_unknown_fields`: members under unknown keys are skipped, a known key
    given twice is an error, a missing field with a `default = "..."` attribute takes that
    helper's value, and a missing `Option` field is `None`. */
module Context {
  import opened Results
  import opened Json

  /** Rust's `u64`. */
  type U64 = n: nat | n < 0x1_0000_0000_0000_0000

  // The defaults are defined elsewhere in the tool (its `util` module), which is not part
  // of this model: they are named constants whose values the proofs never look at.
  const DefaultNatsHost: string
  /** `DEFAULT_NATS_PORT.to_string()`: ports are strings in this record. */
  const DefaultNatsPort: string
  const DefaultNatsTimeout: U64
  const DefaultLatticePrefix: string

  /** The serde default helpers. */
  function DefaultHostHelper(): string { DefaultNatsHost }
  function DefaultPortHelper(): string { DefaultNatsPort }
  function DefaultLatticePrefixHelper(): string { DefaultLatticePrefix }
  function DefaultTimeoutHelper(): U64 { DefaultNatsTimeout }

  /** The index record: the name of the default context, and nothing else. */
  datatype DefaultContext = DefaultContext(name: string)

  datatype WashContext = WashContext(
    clusterSeed: Option<string>,
    ctlHost: string,
    ctlPort: string,
    ctlJwt: Option<string>,
    ctlSeed: Option<string>,
    ctlCredsfile: Option<string>,
    ctlTimeout: U64,
    latticePrefix: string,
    rpcHost: string,
    rpcPort: string,
    rpcJwt: Option<string>,
    rpcSeed: Option<string>,
    rpcCredsfile: Option<string>,
    rpcTimeout: U64)

  datatype DecodeError =
    | NotAnObject
    | MissingField(key: string)
    | DuplicateField(key: string)
    | InvalidType(key: string)

  /** What a field's value must look like: a string, a string or null, or a `u64`. */
  datatype Shape = Str | OptStr | Unsigned

  predicate Fits(v: Json, shape: Shape) {
    match shape
    case Str => v.JStr?
    case OptStr => v.JNull? || v.JStr?
    case Unsigned => v.JNum? && 0 <= v.n < 0x1_0000_0000_0000_0000
  }

  /** The JSON keys of `WashContext`'s fields. */
  const KnownKeys: set<string> := {
    "cluster_seed", "ctl_host", "ctl_port", "ctl_jwt", "ctl_seed", "ctl_credsfile", "ctl_timeout",
    "lattice_prefix", "rpc_host", "rpc_port", "rpc_jwt", "rpc_seed", "rpc_credsfile", "rpc_timeout"}

  /** `key` occurs at most once, and its value, if any, has the right shape. */
  predicate FieldFits(ms: seq<(string, Json)>, key: string, shape: Shape) {
    var vs := Occurrences(ms, key);
    |vs| <= 1 && (|vs| == 1 ==> Fits(vs[0], shape))
  }

  /** The value under `key`, if present; a second occurrence is an error. */
  function Field(ms: seq<(string, Json)>, key: string): Result<Option<Json>, DecodeError> {
    var vs := Occurrences(ms, key);
    if |vs| == 0 then Ok(None)
    else if |vs| == 1 then Ok(Some(vs[0]))
    else Err(DuplicateField(key))
  }

  /** A string field: absent takes `default`. */
  function AsString(f: Result<Option<Json>, DecodeError>, key: string, default: string): (r: Result<string, DecodeError>)
    ensures r.Ok? <==> f.Ok? && (f.value.Some? ==> f.value.value.JStr?)
  {
    var v :- f;
    match v
    case None => Ok(default)
    case Some(JStr(s)) => Ok(s)
    case Some(_) => Err(InvalidType(key))
  }

  /** An `Option<String>` (or `Option<PathBuf>`) field: absent or `null` is `None`. */
  function AsOptString(f: Result<Option<Json>, DecodeError>, key: string): (r: Result<Option<string>, DecodeError>)
    ensures r.Ok? <==> f.Ok? && (f.value.Some? ==> f.value.value.JNull? || f.value.value.JStr?)
  {
    var v :- f;
    match v
    case None => Ok(None)
    case Some(JNull) => Ok(None)
    case Some(JStr(s)) => Ok(Some(s))
    case Some(_) => Err(InvalidType(key))
  }

  /** A `u64` field: absent takes `default`; a negative or too large number is rejected. */
  function AsU64(f: Result<Option<Json>, DecodeError>, key: string, default: U64): (r: Result<U64, DecodeError>)
    ensures r.Ok? <==> f.Ok? && (f.value.Some? ==> Fits(f.value.value, Unsigned))
  {
    var v :- f;
    match v
    case None => Ok(default)
    case Some(JNum(n)) => if 0 <= n < 0x1_0000_0000_0000_0000 then Ok(n) else Err(InvalidType(key))
    case Some(_) => Err(InvalidType(key))
  }

  /** The connection settings of one transport (control or rpc). */
  datatype Transport = Transport(host: string, port: string, jwt: Option<string>, seed: Option<string>,
                                 credsfile: Option<string>, timeout: U64)

  /** The JSON keys of one transport's six fields. */
  datatype TransportKeys = TransportKeys(host: string, port: string, jwt: string, seed: string,
                                         credsfile: string, timeout: string)

  const CtlKeys := TransportKeys("ctl_host", "ctl_port", "ctl_jwt", "ctl_seed", "ctl_credsfile", "ctl_timeout")
  const RpcKeys := TransportKeys("rpc_host", "rpc_port", "rpc_jwt", "rpc_seed", "rpc_credsfile", "rpc_timeout")

  predicate TransportFits(ms: seq<(string, Json)>, k: TransportKeys) {
    && FieldFits(ms, k.host, Str)
    && FieldFits(ms, k.port, Str)
    && FieldFits(ms, k.jwt, OptStr)
    && FieldFits(ms, k.seed, OptStr)
    && FieldFits(ms, k.credsfile, OptStr)
    && FieldFits(ms, k.timeout, Unsigned)
  }

  /** Reads the six fields of one transport, in declaration order. */
  function DecodeTransport(ms: seq<(string, Json)>, k: TransportKeys): (r: Result<Transport, DecodeError>)
    ensures r.Ok? <==> TransportFits(ms, k)
  {
    TransportFrom(Field(ms, k.host), Field(ms, k.port), Field(ms, k.jwt), Field(ms, k.seed),
                  Field(ms, k.credsfile), Field(ms, k.timeout), k)
  }

  function TransportFrom(host: Result<Option<Json>, DecodeError>, port: Result<Option<Json>, DecodeError>,
                         jwt: Result<Option<Json>, DecodeError>, seed: Result<Option<Json>, DecodeError>,
                         credsfile: Result<Option<Json>, DecodeError>, timeout: Result<Option<Json>, DecodeError>,
                         k: TransportKeys): Result<Transport, DecodeError>
  {
    var host :- AsString(host, k.host, DefaultHostHelper());
    var port :- AsString(port, k.port, DefaultPortHelper());
    var jwt :- AsOptString(jwt, k.jwt);
    var seed :- AsOptString(seed, k.seed);
    var credsfile :- AsOptString(credsfile, k.credsfile);
    var timeout :- AsU64(timeout, k.timeout, DefaultTimeoutHelper());
    Ok(Transport(host, port, jwt, seed, credsfile, timeout))
  }

  /** Every field of the record occurs at most once, with a value of its type. */
  predicate Conforms(ms: seq<(string, Json)>) {
    && FieldFits(ms, "cluster_seed", OptStr)
    && TransportFits(ms, CtlKeys)
    && FieldFits(ms, "lattice_prefix", Str)
    && TransportFits(ms, RpcKeys)
  }

  /** Deserialises a context document. */
  function DecodeContext(j: Json): (r: Result<WashContext, DecodeError>)
    ensures r.Ok? <==> j.JObj? && Conforms(j.members)
  {
    if !j.JObj? then Err(NotAnObject)
    else
      var ms := j.members;
      ContextFrom(Field(ms, "cluster_seed"), DecodeTransport(ms, CtlKeys), Field(ms, "lattice_prefix"),
                  DecodeTransport(ms, RpcKeys))
  }

  function ContextFrom(clusterSeed: Result<Option<Json>, DecodeError>, ctl: Result<Transport, DecodeError>,
                       latticePrefix: Result<Option<Json>, DecodeError>, rpc: Result<Transport, DecodeError>)
    : Result<WashContext, DecodeError>
  {
    var clusterSeed :- AsOptString(clusterSeed, "cluster_seed");
    var ctl :- ctl;
    var latticePrefix :- AsString(latticePrefix, "lattice_prefix", DefaultLatticePrefixHelper());
    var rpc :- rpc;
    Ok(WashContext(clusterSeed, ctl.host, ctl.port, ctl.jwt, ctl.seed, ctl.credsfile, ctl.timeout,
                   latticePrefix, rpc.host, rpc.port, rpc.jwt, rpc.seed, rpc.credsfile, rpc.timeout))
  }

  /** A missing key. */
  predicate Absent(ms: seq<(string, Json)>, key: string) {
    Occurrences(ms, key) == []
  }

  /** `WashContext::default()`. Its fields are exactly what decoding `{}` produces, and the
      control and rpc transports mirror each other with no credentials. */
  function Default(): (c: WashContext)
    ensures c.ctlHost == c.rpcHost && c.ctlPort == c.rpcPort && c.ctlTimeout == c.rpcTimeout
    ensures c.ctlJwt.None? && c.ctlSeed.None? && c.ctlCredsfile.None?
    ensures c.rpcJwt.None? && c.rpcSeed.None? && c.rpcCredsfile.None?
    ensures c.clusterSeed.None?
    ensures c.ctlHost == DefaultNatsHost && c.ctlPort == DefaultNatsPort
    ensures c.ctlTimeout == DefaultNatsTimeout && c.latticePrefix == DefaultLatticePrefix
  {
    WashContext(
      None, DefaultNatsHost, DefaultNatsPort, None, None, None, DefaultNatsTimeout,
      DefaultLatticePrefix,
      DefaultNatsHost, DefaultNatsPort, None, None, None, DefaultNatsTimeout)
  }

  /** Decoding `{}` gives `WashContext::default()`: every field falls back to its default. */
  lemma EmptyDecodesToDefault()
    ensures DecodeContext(JObj([])) == Ok(Default())
  {
  }

  function OptText(o: Option<string>): Json {
    match o
    case None => JNull
    case Some(s) => JStr(s)
  }

  /** Serialises a context with every field present, in declaration order; `None` becomes `null`. */
  function EncodeContext(c: WashContext): Json {
    JObj([
      ("cluster_seed", OptText(c.clusterSeed)),
      ("ctl_host", JStr(c.ctlHost)),
      ("ctl_port", JStr(c.ctlPort)),
      ("ctl_jwt", OptText(c.ctlJwt)),
      ("ctl_seed", OptText(c.ctlSeed)),
      ("ctl_credsfile", OptText(c.ctlCredsfile)),
      ("ctl_timeout", JNum(c.ctlTimeout)),
      ("lattice_prefix", JStr(c.latticePrefix)),
      ("rpc_host", JStr(c.rpcHost)),
      ("rpc_port", JStr(c.rpcPort)),
      ("rpc_jwt", OptText(c.rpcJwt)),
      ("rpc_seed", OptText(c.rpcSeed)),
      ("rpc_credsfile", OptText(c.rpcCredsfile)),
      ("rpc_timeout", JNum(c.rpcTimeout))])
  }

  /** The keys of an encoded context, in order. */
  const EncodedKeys: seq<string> := [
    "cluster_seed", "ctl_host", "ctl_port", "ctl_jwt", "ctl_seed", "ctl_credsfile", "ctl_timeout",
    "lattice_prefix", "rpc_host", "rpc_port", "rpc_jwt", "rpc_seed", "rpc_credsfile", "rpc_timeout"]

  /** Every field is written, under its JSON key, in declaration order. */
  lemma EncodeContextKeys(c: WashContext)
    ensures EncodeContext(c).JObj? && |EncodeContext(c).members| == |EncodedKeys|
    ensures forall i :: 0 <= i < |EncodedKeys| ==> EncodeContext(c).members[i].0 == EncodedKeys[i]
  {
  }

  lemma EncodedKeysDistinct()
    ensures forall i, j :: 0 <= i < j < |EncodedKeys| ==> EncodedKeys[i] != EncodedKeys[j]
  {
  }

  lemma EncodedFieldFound(c: WashContext, i: nat)
    requires i < 14
    ensures var ms := EncodeContext(c).members;
      Occurrences(ms, EncodedKeys[i]) == [ms[i].1]
  {
    var ms := EncodeContext(c).members;
    EncodedKeysDistinct();
    assert forall j :: 0 <= j < |ms| ==> ms[j].0 == EncodedKeys[j];
    OccurrencesUnique(ms, i);
  }

  lemma DecodeTransportFound(ms: seq<(string, Json)>, k: TransportKeys, t: Transport)
    requires Occurrences(ms, k.host) == [JStr(t.host)]
    requires Occurrences(ms, k.port) == [JStr(t.port)]
    requires Occurrences(ms, k.jwt) == [OptText(t.jwt)]
    requires Occurrences(ms, k.seed) == [OptText(t.seed)]
    requires Occurrences(ms, k.credsfile) == [OptText(t.credsfile)]
    requires Occurrences(ms, k.timeout) == [JNum(t.timeout)]
    ensures DecodeTransport(ms, k) == Ok(t)
  {
    OptTextField(t.jwt, k.jwt);
    OptTextField(t.seed, k.seed);
    OptTextField(t.credsfile, k.credsfile);
    assert AsString(Ok(Some(JStr(t.host))), k.host, DefaultHostHelper()) == Ok(t.host);
    assert AsString(Ok(Some(JStr(t.port))), k.port, DefaultPortHelper()) == Ok(t.port);
    assert AsU64(Ok(Some(JNum(t.timeout))), k.timeout, DefaultTimeoutHelper()) == Ok(t.timeout);
    assert Field(ms, k.host) == Ok(Some(JStr(t.host)));
    assert Field(ms, k.port) == Ok(Some(JStr(t.port)));
    assert Field(ms, k.jwt) == Ok(Some(OptText(t.jwt)));
    assert Field(ms, k.seed) == Ok(Some(OptText(t.seed)));
    assert Field(ms, k.credsfile) == Ok(Some(OptText(t.credsfile)));
    assert Field(ms, k.timeout) == Ok(Some(JNum(t.timeout)));
  }

  /** An optional field written by `OptText` reads back as the same option. */
  lemma OptTextField(o: Option<string>, key: string)
    ensures AsOptString(Ok(Some(OptText(o))), key) == Ok(o)
  {
  }

  function CtlOf(c: WashContext): Transport {
    Transport(c.ctlHost, c.ctlPort, c.ctlJwt, c.ctlSeed, c.ctlCredsfile, c.ctlTimeout)
  }

  function RpcOf(c: WashContext): Transport {
    Transport(c.rpcHost, c.rpcPort, c.rpcJwt, c.rpcSeed, c.rpcCredsfile, c.rpcTimeout)
  }

  /** Each control field of an encoded context is found once, under its own key. */
  lemma EncodedCtlFields(c: WashContext)
    ensures var ms := EncodeContext(c).members;
      && Occurrences(ms, CtlKeys.host) == [JStr(c.ctlHost)]
      && Occurrences(ms, CtlKeys.port) == [JStr(c.ctlPort)]
      && Occurrences(ms, CtlKeys.jwt) == [OptText(c.ctlJwt)]
      && Occurrences(ms, CtlKeys.seed) == [OptText(c.ctlSeed)]
      && Occurrences(ms, CtlKeys.credsfile) == [OptText(c.ctlCredsfile)]
      && Occurrences(ms, CtlKeys.timeout) == [JNum(c.ctlTimeout)]
  {
    var ms := EncodeContext(c).members;
    EncodedFieldFound(c, 1);
    EncodedFieldFound(c, 2);
    EncodedFieldFound(c, 3);
    EncodedFieldFound(c, 4);
    EncodedFieldFound(c, 5);
    EncodedFieldFound(c, 6);
    assert EncodedKeys[1] == CtlKeys.host && ms[1].1 == JStr(c.ctlHost);
    assert EncodedKeys[2] == CtlKeys.port && ms[2].1 == JStr(c.ctlPort);
    assert EncodedKeys[3] == CtlKeys.jwt && ms[3].1 == OptText(c.ctlJwt);
    assert EncodedKeys[4] == CtlKeys.seed && ms[4].1 == OptText(c.ctlSeed);
    assert EncodedKeys[5] == CtlKeys.credsfile && ms[5].1 == OptText(c.ctlCredsfile);
    assert EncodedKeys[6] == CtlKeys.timeout && ms[6].1 == JNum(c.ctlTimeout);
  }

  /** Each rpc field of an encoded context is found once, under its own key. */
  lemma EncodedRpcFields(c: WashContext)
    ensures var ms := EncodeContext(c).members;
      && Occurrences(ms, RpcKeys.host) == [JStr(c.rpcHost)]
      && Occurrences(ms, RpcKeys.port) == [JStr(c.rpcPort)]
      && Occurrences(ms, RpcKeys.jwt) == [OptText(c.rpcJwt)]
      && Occurrences(ms, RpcKeys.seed) == [OptText(c.rpcSeed)]
      && Occurrences(ms, RpcKeys.credsfile) == [OptText(c.rpcCredsfile)]
      && Occurrences(ms, RpcKeys.timeout) == [JNum(c.rpcTimeout)]
  {
    var ms := EncodeContext(c).members;
    EncodedFieldFound(c, 8);
    EncodedFieldFound(c, 9);
    EncodedFieldFound(c, 10);
    EncodedFieldFound(c, 11);
    EncodedFieldFound(c, 12);
    EncodedFieldFound(c, 13);
    assert EncodedKeys[8] == RpcKeys.host && ms[8].1 == JStr(c.rpcHost);
    assert EncodedKeys[9] == RpcKeys.port && ms[9].1 == JStr(c.rpcPort);
    assert EncodedKeys[10] == RpcKeys.jwt && ms[10].1 == OptText(c.rpcJwt);
    assert EncodedKeys[11] == RpcKeys.seed && ms[11].1 == OptText(c.rpcSeed);
    assert EncodedKeys[12] == RpcKeys.credsfile && ms[12].1 == OptText(c.rpcCredsfile);
    assert EncodedKeys[13] == RpcKeys.timeout && ms[13].1 == JNum(c.rpcTimeout);
  }

  /** Writing a context and reading it back gives the same record, unset options included. */
  lemma DecodeEncode(c: WashContext)
    ensures DecodeContext(EncodeContext(c)) == Ok(c)
  {
    EncodedTopFields(c);
    EncodedCtlFields(c);
    EncodedRpcFields(c);
    DecodeFound(EncodeContext(c).members, c);
  }

  /** The two fields outside the transports are found once each in an encoded context. */
  lemma EncodedTopFields(c: WashContext)
    ensures var ms := EncodeContext(c).members;
      && Occurrences(ms, "cluster_seed") == [OptText(c.clusterSeed)]
      && Occurrences(ms, "lattice_prefix") == [JStr(c.latticePrefix)]
  {
    EncodedAt(c, 0, "cluster_seed", OptText(c.clusterSeed));
    EncodedAt(c, 7, "lattice_prefix", JStr(c.latticePrefix));
  }

  lemma EncodedAt(c: WashContext, i: nat, key: string, v: Json)
    requires i < 14 && EncodedKeys[i] == key && EncodeContext(c).members[i].1 == v
    ensures Occurrences(EncodeContext(c).members, key) == [v]
  {
    EncodedFieldFound(c, i);
  }

  /** A document holding each field of `c` exactly once decodes to `c`. */
  lemma DecodeFound(ms: seq<(string, Json)>, c: WashContext)
    requires Occurrences(ms, "cluster_seed") == [OptText(c.clusterSeed)]
    requires Occurrences(ms, "lattice_prefix") == [JStr(c.latticePrefix)]
    requires Occurrences(ms, CtlKeys.host) == [JStr(c.ctlHost)]
    requires Occurrences(ms, CtlKeys.port) == [JStr(c.ctlPort)]
    requires Occurrences(ms, CtlKeys.jwt) == [OptText(c.ctlJwt)]
    requires Occurrences(ms, CtlKeys.seed) == [OptText(c.ctlSeed)]
    requires Occurrences(ms, CtlKeys.credsfile) == [OptText(c.ctlCredsfile)]
    requires Occurrences(ms, CtlKeys.timeout) == [JNum(c.ctlTimeout)]
    requires Occurrences(ms, RpcKeys.host) == [JStr(c.rpcHost)]
    requires Occurrences(ms, RpcKeys.port) == [JStr(c.rpcPort)]
    requires Occurrences(ms, RpcKeys.jwt) == [OptText(c.rpcJwt)]
    requires Occurrences(ms, RpcKeys.seed) == [OptText(c.rpcSeed)]
    requires Occurrences(ms, RpcKeys.credsfile) == [OptText(c.rpcCredsfile)]
    requires Occurrences(ms, RpcKeys.timeout) == [JNum(c.rpcTimeout)]
    ensures DecodeContext(JObj(ms)) == Ok(c)
  {
    DecodeTransportFound(ms, CtlKeys, CtlOf(c));
    DecodeTransportFound(ms, RpcKeys, RpcOf(c));
    assert Field(ms, "cluster_seed") == Ok(Some(OptText(c.clusterSeed)));
    assert Field(ms, "lattice_prefix") == Ok(Some(JStr(c.latticePrefix)));
    ContextFromFields(c);
  }

  lemma EncodingsDecode()
    ensures forall c :: DecodeContext(EncodeContext(c)) == Ok(c)
  {
    forall c {
      DecodeEncode(c);
    }
  }

  lemma ContextFromFields(c: WashContext)
    ensures ContextFrom(Ok(Some(OptText(c.clusterSeed))), Ok(CtlOf(c)), Ok(Some(JStr(c.latticePrefix))), Ok(RpcOf(c)))
         == Ok(c)
  {
    assert AsOptString(Ok(Some(OptText(c.clusterSeed))), "cluster_seed") == Ok(c.clusterSeed);
  }

  /** Two documents that agree on every known key decode alike. */
  predicate SameKnownMembers(ms1: seq<(string, Json)>, ms2: seq<(string, Json)>) {
    forall key :: key in KnownKeys ==> Occurrences(ms1, key) == Occurrences(ms2, key)
  }

  lemma DecodeTransportSame(ms1: seq<(string, Json)>, ms2: seq<(string, Json)>, k: TransportKeys)
    requires Occurrences(ms1, k.host) == Occurrences(ms2, k.host)
    requires Occurrences(ms1, k.port) == Occurrences(ms2, k.port)
    requires Occurrences(ms1, k.jwt) == Occurrences(ms2, k.jwt)
    requires Occurrences(ms1, k.seed) == Occurrences(ms2, k.seed)
    requires Occurrences(ms1, k.credsfile) == Occurrences(ms2, k.credsfile)
    requires Occurrences(ms1, k.timeout) == Occurrences(ms2, k.timeout)
    ensures DecodeTransport(ms1, k) == DecodeTransport(ms2, k)
  {
    assert Field(ms1, k.host) == Field(ms2, k.host);
    assert Field(ms1, k.port) == Field(ms2, k.port);
    assert Field(ms1, k.jwt) == Field(ms2, k.jwt);
    assert Field(ms1, k.seed) == Field(ms2, k.seed);
    assert Field(ms1, k.credsfile) == Field(ms2, k.credsfile);
    assert Field(ms1, k.timeout) == Field(ms2, k.timeout);
  }

  lemma DecodeSameKnown(ms1: seq<(string, Json)>, ms2: seq<(string, Json)>)
    requires SameKnownMembers(ms1, ms2)
    ensures DecodeContext(JObj(ms1)) == DecodeContext(JObj(ms2))
  {
    assert "cluster_seed" in KnownKeys && "lattice_prefix" in KnownKeys;
    assert CtlKeys.host in KnownKeys && CtlKeys.port in KnownKeys && CtlKeys.jwt in KnownKeys;
    assert CtlKeys.seed in KnownKeys && CtlKeys.credsfile in KnownKeys && CtlKeys.timeout in KnownKeys;
    assert RpcKeys.host in KnownKeys && RpcKeys.port in KnownKeys && RpcKeys.jwt in KnownKeys;
    assert RpcKeys.seed in KnownKeys && RpcKeys.credsfile in KnownKeys && RpcKeys.timeout in KnownKeys;
    DecodeTransportSame(ms1, ms2, CtlKeys);
    DecodeTransportSame(ms1, ms2, RpcKeys);
    assert Field(ms1, "cluster_seed") == Field(ms2, "cluster_seed");
    assert Field(ms1, "lattice_prefix") == Field(ms2, "lattice_prefix");
  }

  /** Decoding looks only at the record's own keys: every other member is skipped. */
  lemma DecodeIgnoresUnknownKeys(ms: seq<(string, Json)>)
    ensures DecodeContext(JObj(ms)) == DecodeContext(JObj(Keep(ms, KnownKeys)))
  {
    forall key | key in KnownKeys ensures Occurrences(ms, key) == Occurrences(Keep(ms, KnownKeys), key) {
      OccurrencesKeep(ms, KnownKeys, key);
    }
    DecodeSameKnown(ms, Keep(ms, KnownKeys));
  }

  lemma TransportMissingFields(ms: seq<(string, Json)>, k: TransportKeys)
    requires DecodeTransport(ms, k).Ok?
    ensures var t := DecodeTransport(ms, k).value;
      && (Absent(ms, k.host) ==> t.host == DefaultHostHelper())
      && (Absent(ms, k.port) ==> t.port == DefaultPortHelper())
      && (Absent(ms, k.jwt) ==> t.jwt == None)
      && (Absent(ms, k.seed) ==> t.seed == None)
      && (Absent(ms, k.credsfile) ==> t.credsfile == None)
      && (Absent(ms, k.timeout) ==> t.timeout == DefaultTimeoutHelper())
  {
  }

  /** A field missing from a document that decodes takes its serde default: the helper's
      value for hosts, ports, timeouts and the lattice prefix, `None` for every option. */
  lemma DecodeMissingFields(ms: seq<(string, Json)>)
    requires DecodeContext(JObj(ms)).Ok?
    ensures var c := DecodeContext(JObj(ms)).value;
      && (Absent(ms, "cluster_seed") ==> c.clusterSeed == None)
      && (Absent(ms, "ctl_host") ==> c.ctlHost == DefaultHostHelper())
      && (Absent(ms, "ctl_port") ==> c.ctlPort == DefaultPortHelper())
      && (Absent(ms, "ctl_jwt") ==> c.ctlJwt == None)
      && (Absent(ms, "ctl_seed") ==> c.ctlSeed == None)
      && (Absent(ms, "ctl_credsfile") ==> c.ctlCredsfile == None)
      && (Absent(ms, "ctl_timeout") ==> c.ctlTimeout == DefaultTimeoutHelper())
      && (Absent(ms, "lattice_prefix") ==> c.latticePrefix == DefaultLatticePrefixHelper())
      && (Absent(ms, "rpc_host") ==> c.rpcHost == DefaultHostHelper())
      && (Absent(ms, "rpc_port") ==> c.rpcPort == DefaultPortHelper())
      && (Absent(ms, "rpc_jwt") ==> c.rpcJwt == None)
      && (Absent(ms, "rpc_seed") ==> c.rpcSeed == None)
      && (Absent(ms, "rpc_credsfile") ==> c.rpcCredsfile == None)
      && (Absent(ms, "rpc_timeout") ==> c.rpcTimeout == DefaultTimeoutHelper())
  {
    TransportMissingFields(ms, CtlKeys);
    TransportMissingFields(ms, RpcKeys);
    var c := DecodeContext(JObj(ms)).value;
    assert CtlOf(c) == DecodeTransport(ms, CtlKeys).value;
    assert RpcOf(c) == DecodeTransport(ms, RpcKeys).value;
  }

  lemma StringPresent(ms: seq<(string, Json)>, key: string, default: string)
    requires AsString(Field(ms, key), key, default).Ok?
    ensures !Absent(ms, key) ==> Occurrences(ms, key) == [JStr(AsString(Field(ms, key), key, default).value)]
  {
  }

  lemma OptStringPresent(ms: seq<(string, Json)>, key: string)
    requires AsOptString(Field(ms, key), key).Ok?
    ensures !Absent(ms, key) ==> Occurrences(ms, key) == [OptText(AsOptString(Field(ms, key), key).value)]
  {
  }

  lemma U64Present(ms: seq<(string, Json)>, key: string, default: U64)
    requires AsU64(Field(ms, key), key, default).Ok?
    ensures !Absent(ms, key) ==> Occurrences(ms, key) == [JNum(AsU64(Field(ms, key), key, default).value)]
  {
  }

  lemma TransportPresentFields(ms: seq<(string, Json)>, k: TransportKeys)
    requires DecodeTransport(ms, k).Ok?
    ensures var t := DecodeTransport(ms, k).value;
      && (!Absent(ms, k.host) ==> Occurrences(ms, k.host) == [JStr(t.host)])
      && (!Absent(ms, k.port) ==> Occurrences(ms, k.port) == [JStr(t.port)])
      && (!Absent(ms, k.jwt) ==> Occurrences(ms, k.jwt) == [OptText(t.jwt)])
      && (!Absent(ms, k.seed) ==> Occurrences(ms, k.seed) == [OptText(t.seed)])
      && (!Absent(ms, k.credsfile) ==> Occurrences(ms, k.credsfile) == [OptText(t.credsfile)])
      && (!Absent(ms, k.timeout) ==> Occurrences(ms, k.timeout) == [JNum(t.timeout)])
  {
    var t := DecodeTransport(ms, k).value;
    var host := AsString(Field(ms, k.host), k.host, DefaultHostHelper());
    var port := AsString(Field(ms, k.port), k.port, DefaultPortHelper());
    var jwt := AsOptString(Field(ms, k.jwt), k.jwt);
    var seed := AsOptString(Field(ms, k.seed), k.seed);
    var credsfile := AsOptString(Field(ms, k.credsfile), k.credsfile);
    var timeout := AsU64(Field(ms, k.timeout), k.timeout, DefaultTimeoutHelper());
    assert host.Ok? && port.Ok? && jwt.Ok? && seed.Ok? && credsfile.Ok? && timeout.Ok?;
    assert t == Transport(host.value, port.value, jwt.value, seed.value, credsfile.value, timeout.value);
    StringPresent(ms, k.host, DefaultHostHelper());
    StringPresent(ms, k.port, DefaultPortHelper());
    OptStringPresent(ms, k.jwt);
    OptStringPresent(ms, k.seed);
    OptStringPresent(ms, k.credsfile);
    U64Present(ms, k.timeout, DefaultTimeoutHelper());
  }

  /** A field present in a document that decodes is taken as written: its single occurrence
      is the field's value, with `null` read as `None`. */
  lemma DecodePresentFields(ms: seq<(string, Json)>)
    requires DecodeContext(JObj(ms)).Ok?
    ensures var c := DecodeContext(JObj(ms)).value;
      && (!Absent(ms, "cluster_seed") ==> Occurrences(ms, "cluster_seed") == [OptText(c.clusterSeed)])
      && (!Absent(ms, "ctl_host") ==> Occurrences(ms, "ctl_host") == [JStr(c.ctlHost)])
      && (!Absent(ms, "ctl_port") ==> Occurrences(ms, "ctl_port") == [JStr(c.ctlPort)])
      && (!Absent(ms, "ctl_jwt") ==> Occurrences(ms, "ctl_jwt") == [OptText(c.ctlJwt)])
      && (!Absent(ms, "ctl_seed") ==> Occurrences(ms, "ctl_seed") == [OptText(c.ctlSeed)])
      && (!Absent(ms, "ctl_credsfile") ==> Occurrences(ms, "ctl_credsfile") == [OptText(c.ctlCredsfile)])
      && (!Absent(ms, "ctl_timeout") ==> Occurrences(ms, "ctl_timeout") == [JNum(c.ctlTimeout)])
      && (!Absent(ms, "lattice_prefix") ==> Occurrences(ms, "lattice_prefix") == [JStr(c.latticePrefix)])
      && (!Absent(ms, "rpc_host") ==> Occurrences(ms, "rpc_host") == [JStr(c.rpcHost)])
      && (!Absent(ms, "rpc_port") ==> Occurrences(ms, "rpc_port") == [JStr(c.rpcPort)])
      && (!Absent(ms, "rpc_jwt") ==> Occurrences(ms, "rpc_jwt") == [OptText(c.rpcJwt)])
      && (!Absent(ms, "rpc_seed") ==> Occurrences(ms, "rpc_seed") == [OptText(c.rpcSeed)])
      && (!Absent(ms, "rpc_credsfile") ==> Occurrences(ms, "rpc_credsfile") == [OptText(c.rpcCredsfile)])
      && (!Absent(ms, "rpc_timeout") ==> Occurrences(ms, "rpc_timeout") == [JNum(c.rpcTimeout)])
  {
    var c := DecodeContext(JObj(ms)).value;
    var clusterSeed := AsOptString(Field(ms, "cluster_seed"), "cluster_seed");
    var latticePrefix := AsString(Field(ms, "lattice_prefix"), "lattice_prefix", DefaultLatticePrefixHelper());
    assert clusterSeed.Ok? && latticePrefix.Ok?;
    assert c.clusterSeed == clusterSeed.value && c.latticePrefix == latticePrefix.value;
    OptStringPresent(ms, "cluster_seed");
    StringPresent(ms, "lattice_prefix", DefaultLatticePrefixHelper());
    TransportPresentFields(ms, CtlKeys);
    TransportPresentFields(ms, RpcKeys);
    assert CtlOf(c) == DecodeTransport(ms, CtlKeys).value;
    assert RpcOf(c) == DecodeTransport(ms, RpcKeys).value;
  }

  /** Serialises the index record: a single `name` member. */
  function EncodeIndex(d: DefaultContext): (r: Json)
    ensures r.JObj? && |r.members| == 1 && Occurrences(r.members, "name") == [JStr(d.name)]
    ensures DecodeIndex(r) == Ok(d)
  {
    JObj([("name", JStr(d.name))])
  }

  /** Deserialises the index record; `name` has no default, so it must be there. */
  function DecodeIndex(j: Json): (r: Result<DefaultContext, DecodeError>)
    ensures r.Ok? <==> j.JObj? && |Occurrences(j.members, "name")| == 1 && Occurrences(j.members, "name")[0].JStr?
    ensures r.Ok? ==> Occurrences(j.members, "name") == [JStr(r.value.name)]
  {
    if !j.JObj? then Err(NotAnObject)
    else
      var v :- Field(j.members, "name");
      match v
      case None => Err(MissingField("name"))
      case Some(JStr(s)) => Ok(DefaultContext(s))
      case Some(_) => Err(InvalidType("name"))
  }

  /** The index record round-trips and carries nothing but its name. */
  lemma IndexRoundTrip(name: string)
    ensures DecodeIndex(EncodeIndex(DefaultContext(name))) == Ok(DefaultContext(name))
    ensures EncodeIndex(DefaultContext(name)).members == [("name", JStr(name))]
  {
  }

  /** A context record is not an index record: it has no `name` member. */
  lemma IndexRejectsContext(c: WashContext)
    ensures DecodeIndex(EncodeContext(c)) == Err(MissingField("name"))
  {
    var ms := EncodeContext(c).members;
    forall j | 0 <= j < |ms| ensures ms[j].0 != "name" {
      assert |ms[j].0| != 4;
    }
    assert Occurrences(ms, "name") == [];
    assert Field(ms, "name") == Ok(None);
  }
}
