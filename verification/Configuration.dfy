/** Layered configuration: defaults, a TOML file, the environment and the command line. */
module Configuration {
  import opened Outcome
  import opened Text
  import opened Json
  import opened Cidr
  import opened Validation

  /** A value as a layer supplies it, before any check. */
  datatype Raw = Words(s: string) | Real(f: Float) | Whole(i: int) | Truth(b: bool) | Other

  /** Library behaviour: `is_private`, `float(text)`, `float(int)` (`None` is `OverflowError`), and
      `Path(text).expanduser()`. */
  datatype Library = Library(
    isPrivate: Network -> bool, parseFloat: string -> Option<Float>, intToFloat: int -> Option<real>,
    expand: string -> string)

  // ----- Validators -----

  /** `_validate_node_id` */
  function NodeId(raw: Raw): (r: Result<string>)
    ensures r.Err? ==> r.error == ConfigurationError
  {
    if raw.Words? && ValidNodeId(raw.s).Some? then Ok(ValidNodeId(raw.s).value) else Err(ConfigurationError)
  }

  /** `_validate_compose_subnet`: a private IPv4 block, printed with its host bits cleared. */
  function Subnet(lib: Library, raw: Raw): (r: Result<string>)
    ensures r.Err? ==> r.error == ConfigurationError
  {
    if !raw.Words? then Err(ConfigurationError)
    else
      var net := ParseV4(Strip(raw.s));
      if net.Some? && lib.isPrivate(net.value) then Ok(PrintV4(net.value)) else Err(ConfigurationError)
  }

  function AsFloat(lib: Library, raw: Raw): Result<Float> {
    match raw
    case Real(f) => Ok(f)
    case Truth(b) => Ok(Finite(if b then 1.0 else 0.0))
    case Whole(i) => if lib.intToFloat(i).Some? then Ok(Finite(lib.intToFloat(i).value)) else Err(OtherException)
    case Words(s) =>
      var f := lib.parseFloat(Strip(s));
      if Strip(s) != "" && f.Some? then Ok(f.value) else Err(ConfigurationError)
    case Other => Err(ConfigurationError)
  }

  /** `_validate_timeout` */
  function Timeout(lib: Library, raw: Raw): (r: Result<real>)
    ensures r.Err? && (raw.Whole? ==> lib.intToFloat(raw.i).Some?) ==> r.error == ConfigurationError
  {
    var f := AsFloat(lib, raw);
    if f.Err? then Err(f.error)
    else if PositiveFinite(f.value) then Ok(f.value.r)
    else Err(ConfigurationError)
  }

  /** A boolean is a number to Python: true is the timeout 1.0, and false is refused as zero. */
  lemma TruthTimeout(lib: Library, b: bool)
    ensures Timeout(lib, Truth(b)) == if b then Ok(1.0) else Err(ConfigurationError)
  {
  }

  /** The checks made on `data_dir` in each layer. */
  function DataDir(lib: Library, raw: Raw): (r: Result<string>)
    ensures r.Err? ==> r.error == ConfigurationError
  {
    if raw.Words? && Strip(raw.s) != "" then Ok(lib.expand(raw.s)) else Err(ConfigurationError)
  }

  /** Each validator accepts its own results and leaves them alone. */
  lemma ValidatorsIdempotent(lib: Library, raw: Raw)
    ensures NodeId(raw).Ok? ==> NodeId(Words(NodeId(raw).value)) == NodeId(raw)
    ensures Subnet(lib, raw).Ok? ==> Subnet(lib, Words(Subnet(lib, raw).value)) == Subnet(lib, raw)
    ensures Timeout(lib, raw).Ok? ==> Timeout(lib, Real(Finite(Timeout(lib, raw).value))) == Timeout(lib, raw)
  {
    hide ParseV4, PrintV4, ValidNodeId, LStrip, RStrip, Strip;
    if raw.Words? {
      NodeIdIdempotent(raw.s);
      var net := ParseV4(Strip(raw.s));
      if net.Some? {
        PrintedTight(net.value);
        ParsePrintV4(net.value);
      }
    }
  }

  lemma PrintedTight(n: Network)
    ensures Strip(PrintV4(n)) == PrintV4(n)
  {
    hide ParseV4, LStrip, RStrip, Strip, Cidr.Decimal;
    var s := PrintV4(n);
    var head, tail := Cidr.Decimal(n.base / 0x100_0000), Cidr.Decimal(n.prefix);
    assert s[0] == head[0] && s[|s| - 1] == tail[|tail| - 1];
    StripTight(s);
  }

  // ----- Layers -----

  /** The settings one layer supplies. */
  datatype Layer = Layer(
    dataDir: Option<Raw>, nodeId: Option<Raw>, subnet: Option<Raw>, startup: Option<Raw>, shutdown: Option<Raw>)
  {
    predicate SetsAny() { dataDir.Some? || nodeId.Some? || subnet.Some? || startup.Some? || shutdown.Some? }
  }

  datatype Settings = Settings(dataDir: string, nodeId: string, subnet: string, startup: real, shutdown: real)

  const DEFAULT_ID := "regtest-node-1"
  const DEFAULT_SUBNET := "172.28.0.0/16"

  function Defaults(lib: Library): Settings {
    Settings(lib.expand(".bitheim"), DEFAULT_ID, DEFAULT_SUBNET, 30.0, 30.0)
  }

  /** Everything the layer supplies is valid, whether or not a higher layer overrides it. */
  predicate LayerValid(lib: Library, l: Layer) {
    (l.dataDir.Some? ==> DataDir(lib, l.dataDir.value).Ok?) &&
    (l.nodeId.Some? ==> NodeId(l.nodeId.value).Ok?) &&
    (l.subnet.Some? ==> Subnet(lib, l.subnet.value).Ok?) &&
    (l.startup.Some? ==> Timeout(lib, l.startup.value).Ok?) &&
    (l.shutdown.Some? ==> Timeout(lib, l.shutdown.value).Ok?)
  }

  /** The first of the given that is there, from the highest layer down. */
  function Highest(cli: Option<Raw>, env: Option<Raw>, file: Option<Raw>): Option<Raw> {
    if cli.Some? then cli else if env.Some? then env else file
  }

  /** What a setting comes to: the highest layer's value, validated, or the default. */
  function Chosen<T>(raw: Option<Raw>, check: Raw -> Result<T>, default: T): T {
    if raw.Some? && check(raw.value).Ok? then check(raw.value).value else default
  }

  function Effective(lib: Library, file: Layer, env: Layer, cli: Layer): Settings {
    var d := Defaults(lib);
    Settings(
      Chosen(Highest(cli.dataDir, env.dataDir, file.dataDir), r => DataDir(lib, r), d.dataDir),
      Chosen(Highest(cli.nodeId, env.nodeId, file.nodeId), r => NodeId(r), d.nodeId),
      Chosen(Highest(cli.subnet, env.subnet, file.subnet), r => Subnet(lib, r), d.subnet),
      Chosen(Highest(cli.startup, env.startup, file.startup), r => Timeout(lib, r), d.startup),
      Chosen(Highest(cli.shutdown, env.shutdown, file.shutdown), r => Timeout(lib, r), d.shutdown))
  }

  /** The settings after one layer has written over them. */
  function Overlay(lib: Library, s: Settings, l: Layer): Settings {
    Settings(
      Chosen(l.dataDir, r => DataDir(lib, r), s.dataDir),
      Chosen(l.nodeId, r => NodeId(r), s.nodeId),
      Chosen(l.subnet, r => Subnet(lib, r), s.subnet),
      Chosen(l.startup, r => Timeout(lib, r), s.startup),
      Chosen(l.shutdown, r => Timeout(lib, r), s.shutdown))
  }

  lemma OverlayOne<T>(cli: Option<Raw>, env: Option<Raw>, file: Option<Raw>, check: Raw -> Result<T>, default: T)
    requires (cli.Some? ==> check(cli.value).Ok?) && (env.Some? ==> check(env.value).Ok?) &&
      (file.Some? ==> check(file.value).Ok?)
    ensures Chosen(cli, check, Chosen(env, check, Chosen(file, check, default))) ==
            Chosen(Highest(cli, env, file), check, default)
  {
  }

  /** Writing the layers over one another, lowest first, is "the highest layer wins", setting by setting. */
  lemma OverlayIsHighest(lib: Library, file: Layer, env: Layer, cli: Layer)
    requires LayerValid(lib, file) && LayerValid(lib, env) && LayerValid(lib, cli)
    ensures Overlay(lib, Overlay(lib, Overlay(lib, Defaults(lib), file), env), cli) == Effective(lib, file, env, cli)
  {
    hide DataDir, NodeId, Subnet, Timeout, Chosen, Highest;
    var d := Defaults(lib);
    OverlayOne(cli.dataDir, env.dataDir, file.dataDir, r => DataDir(lib, r), d.dataDir);
    OverlayOne(cli.nodeId, env.nodeId, file.nodeId, r => NodeId(r), d.nodeId);
    OverlayOne(cli.subnet, env.subnet, file.subnet, r => Subnet(lib, r), d.subnet);
    OverlayOne(cli.startup, env.startup, file.startup, r => Timeout(lib, r), d.startup);
    OverlayOne(cli.shutdown, env.shutdown, file.shutdown, r => Timeout(lib, r), d.shutdown);
  }

  // ----- The configuration file -----

  /** `Undecodable` is a file that is not UTF-8 or holds an integer too long to read: `ValueError` in either case. */
  datatype Contents = Undecodable | NotToml | Unreadable | Parsed(root: map<string, Section>)

  datatype Section = Table(entries: map<string, Raw>) | NotATable

  datatype Target = Nowhere | NotAFile | File(contents: Contents)

  function Entry(root: map<string, Section>, section: string, key: string): Option<Raw> {
    if section in root && root[section].Table? && key in root[section].entries
    then Some(root[section].entries[key]) else None
  }

  predicate KnownSections(root: map<string, Section>) {
    forall k :: k in root ==> k == "runtime" || k == "node"
  }

  predicate KnownEntries(root: map<string, Section>, section: string, keys: set<string>) {
    section in root ==> root[section].Table? && root[section].entries.Keys <= keys
  }

  const NODE_KEYS := {"node_id", "compose_subnet", "startup_timeout", "shutdown_timeout"}

  /** The file holds only the sections and entries that are known. */
  predicate GoodSchema(root: map<string, Section>) {
    KnownSections(root) && KnownEntries(root, "runtime", {"data_dir"}) && KnownEntries(root, "node", NODE_KEYS)
  }

  function FileLayer(root: map<string, Section>): Layer {
    Layer(Entry(root, "runtime", "data_dir"), Entry(root, "node", "node_id"), Entry(root, "node", "compose_subnet"),
          Entry(root, "node", "startup_timeout"), Entry(root, "node", "shutdown_timeout"))
  }

  const NOTHING := Layer(None, None, None, None, None)

  function FromEnv(env: map<string, string>, name: string): Option<Raw> {
    if name in env then Some(Words(env[name])) else None
  }

  function EnvLayer(env: map<string, string>): Layer {
    Layer(FromEnv(env, "BITHEIM_DATA_DIR"), FromEnv(env, "BITHEIM_NODE_ID"), FromEnv(env, "BITHEIM_COMPOSE_SUBNET"),
          FromEnv(env, "BITHEIM_STARTUP_TIMEOUT"), FromEnv(env, "BITHEIM_SHUTDOWN_TIMEOUT"))
  }

  /** What the caller and the machine supply. */
  datatype Inputs = Inputs(explicit: Option<Target>, default: Option<Target>, env: map<string, string>, cli: Layer)

  /** The file that is read, if any; an explicit path must lead to a file, a default one need not exist. */
  function Located(i: Inputs): Result<Option<Contents>> {
    if i.explicit.Some? then
      if i.explicit.value.File? then Ok(Some(i.explicit.value.contents)) else Err(ConfigurationError)
    else if i.default.None? || i.default.value.Nowhere? then Ok(None)
    else if i.default.value.File? then Ok(Some(i.default.value.contents))
    else Err(ConfigurationError)
  }

  /** The layer the file supplies; the error of an undecodable file is not translated. */
  function FileSettings(c: Option<Contents>): Result<Layer> {
    match c
    case None => Ok(NOTHING)
    case Some(Undecodable) => Err(ValueError)
    case Some(NotToml) => Err(ConfigurationError)
    case Some(Unreadable) => Err(ConfigurationError)
    case Some(Parsed(root)) => if GoodSchema(root) then Ok(FileLayer(root)) else Err(ConfigurationError)
  }

  /** The layer below the environment: none when there is no file to read. */
  function FileOf(i: Inputs): Result<Layer> {
    if Located(i).Ok? then FileSettings(Located(i).value) else Err(Located(i).error)
  }

  datatype Origin = FromDefaults | FromFile | FromEnvironment | FromCli

  datatype Loaded = Loaded(settings: Settings, hasFile: bool, origin: Origin)

  /** The highest layer that supplied anything; a file counts as soon as it is there. */
  function OriginOf(hasFile: bool, env: Layer, cli: Layer): Origin {
    if cli.SetsAny() then FromCli
    else if env.SetsAny() then FromEnvironment
    else if hasFile then FromFile
    else FromDefaults
  }

  /** A file could be read where one is needed, and every layer is valid, overridden or not. */
  predicate Acceptable(lib: Library, i: Inputs) {
    FileOf(i).Ok? && LayerValid(lib, FileOf(i).value) && LayerValid(lib, EnvLayer(i.env)) && LayerValid(lib, i.cli)
  }

  // ----- Failures -----

  /** The error of a setting, if the layer supplies a bad one. */
  function ErrorOf<T>(raw: Option<Raw>, check: Raw -> Result<T>): Option<Failure> {
    if raw.Some? && check(raw.value).Err? then Some(check(raw.value).error) else None
  }

  function Else(first: Option<Failure>, second: Option<Failure>): Option<Failure> {
    if first.Some? then first else second
  }

  /** The error of the first bad value, in the order in which the loader looks at them. */
  function FirstError(lib: Library, l: Layer): Option<Failure> {
    Else(ErrorOf(l.dataDir, r => DataDir(lib, r)),
    Else(ErrorOf(l.nodeId, r => NodeId(r)),
    Else(ErrorOf(l.subnet, r => Subnet(lib, r)),
    Else(ErrorOf(l.startup, r => Timeout(lib, r)),
         ErrorOf(l.shutdown, r => Timeout(lib, r))))))
  }

  /** The error of the whole load: the file's own, or that of the first bad value, lowest layer first. */
  function LoadError(lib: Library, i: Inputs): Option<Failure> {
    var file := FileOf(i);
    if file.Err? then Some(file.error)
    else Else(FirstError(lib, file.value), Else(FirstError(lib, EnvLayer(i.env)), FirstError(lib, i.cli)))
  }

  /** An integer beyond the range of floats. */
  predicate Huge(lib: Library, raw: Option<Raw>) {
    raw.Some? && raw.value.Whole? && lib.intToFloat(raw.value.i).None?
  }

  predicate GoodTimeout(lib: Library, raw: Option<Raw>) {
    raw.Some? ==> Timeout(lib, raw.value).Ok?
  }

  /** The first bad value of the layer is a timeout that is such an integer. */
  predicate HugeFirst(lib: Library, l: Layer) {
    (l.dataDir.Some? ==> DataDir(lib, l.dataDir.value).Ok?) &&
    (l.nodeId.Some? ==> NodeId(l.nodeId.value).Ok?) &&
    (l.subnet.Some? ==> Subnet(lib, l.subnet.value).Ok?) &&
    (Huge(lib, l.startup) || (GoodTimeout(lib, l.startup) && Huge(lib, l.shutdown)))
  }

  /** The first bad value of all the layers is a timeout that is such an integer. */
  predicate OverflowsFirst(lib: Library, i: Inputs) {
    FileOf(i).Ok? &&
    (HugeFirst(lib, FileOf(i).value) ||
     (LayerValid(lib, FileOf(i).value) && HugeFirst(lib, EnvLayer(i.env))) ||
     (LayerValid(lib, FileOf(i).value) && LayerValid(lib, EnvLayer(i.env)) && HugeFirst(lib, i.cli)))
  }

  lemma TimeoutErrors(lib: Library, raw: Option<Raw>)
    ensures raw.Some? && Timeout(lib, raw.value) == Err(OtherException) <==> Huge(lib, raw)
    ensures raw.Some? && Timeout(lib, raw.value).Err? && !Huge(lib, raw) ==>
            Timeout(lib, raw.value) == Err(ConfigurationError)
  {
  }

  lemma FirstErrorClass(lib: Library, l: Layer)
    ensures FirstError(lib, l).None? <==> LayerValid(lib, l)
    ensures FirstError(lib, l) == Some(OtherException) <==> HugeFirst(lib, l)
    ensures FirstError(lib, l).Some? ==> FirstError(lib, l).value in {ConfigurationError, OtherException}
  {
    hide DataDir, NodeId, Subnet, Timeout, Huge;
    TimeoutErrors(lib, l.startup);
    TimeoutErrors(lib, l.shutdown);
  }

  lemma FileErrors(i: Inputs)
    ensures FileOf(i) == Err(ValueError) <==> Located(i) == Ok(Some(Undecodable))
    ensures FileOf(i).Err? ==> FileOf(i).error in {ConfigurationError, ValueError}
  {
    hide GoodSchema, FileLayer;
  }

  /** Which exception `load_configuration` raises, for all inputs: none exactly on acceptable ones, a
      `ValueError` exactly when the file cannot be decoded, an `OverflowError` exactly when the first bad
      value is a huge integer as a timeout, and the documented `ConfigurationError` in all other cases. */
  lemma LoadErrorClass(lib: Library, i: Inputs)
    ensures LoadError(lib, i).None? <==> Acceptable(lib, i)
    ensures LoadError(lib, i) == Some(ValueError) <==> Located(i) == Ok(Some(Undecodable))
    ensures LoadError(lib, i) == Some(OtherException) <==> OverflowsFirst(lib, i)
    ensures LoadError(lib, i).Some? ==> LoadError(lib, i).value in {ConfigurationError, ValueError, OtherException}
  {
    hide FirstError, LayerValid, HugeFirst, EnvLayer, FileOf;
    FileErrors(i);
    FirstErrorClass(lib, EnvLayer(i.env));
    FirstErrorClass(lib, i.cli);
    if FileOf(i).Ok? {
      FirstErrorClass(lib, FileOf(i).value);
    }
  }

  /** A file that sets the startup timeout to a huge integer and nothing else. */
  function HugeTimeoutFile(n: int): map<string, Section> {
    map["node" := Table(map["startup_timeout" := Whole(n)])]
  }

  /** It is a well-formed file, and loading it raises `OverflowError`. */
  lemma HugeTimeoutEscapes(lib: Library, n: int, env: map<string, string>, cli: Layer)
    requires lib.intToFloat(n).None?
    ensures LoadError(lib, Inputs(Some(File(Parsed(HugeTimeoutFile(n)))), None, env, cli)) == Some(OtherException)
  {
    hide FirstError, EnvLayer;
    HugeLayer(n);
    FirstErrorClass(lib, FileLayer(HugeTimeoutFile(n)));
  }

  lemma HugeLayer(n: int)
    ensures GoodSchema(HugeTimeoutFile(n))
    ensures FileLayer(HugeTimeoutFile(n)) == Layer(None, None, None, Some(Whole(n)), None)
  {
    assert "node" != "runtime";
    assert |"startup_timeout"| == 15 && |"shutdown_timeout"| == 16 && |"node_id"| == 7 && |"compose_subnet"| == 14;
  }

  /** What acceptable inputs come to. */
  function LoadedFrom(lib: Library, i: Inputs): Loaded
    requires Acceptable(lib, i)
  {
    var (hasFile, env) := (Located(i).value.Some?, EnvLayer(i.env));
    Loaded(Effective(lib, FileOf(i).value, env, i.cli), hasFile, OriginOf(hasFile, env, i.cli))
  }

  // ----- The same, by name -----

  /** The file that is read has this value at this place. */
  predicate FileSays(i: Inputs, section: string, key: string, raw: Raw) {
    var target := if i.explicit.Some? then i.explicit else i.default;
    target.Some? && target.value.File? && target.value.contents.Parsed? &&
    var root := target.value.contents.root;
    section in root && root[section].Table? && key in root[section].entries && root[section].entries[key] == raw
  }

  /** This is the value given highest: on the command line, else in the variable, else in the file. */
  predicate Decides(i: Inputs, cli: Option<Raw>, variable: string, section: string, key: string, raw: Raw) {
    if cli.Some? then raw == cli.value
    else if variable in i.env then raw == Words(i.env[variable])
    else FileSays(i, section, key, raw)
  }

  /** No layer gives a value. */
  ghost predicate Unset(i: Inputs, cli: Option<Raw>, variable: string, section: string, key: string) {
    cli.None? && variable !in i.env && forall raw :: !FileSays(i, section, key, raw)
  }

  /** Every layer that gives a value gives a good one. */
  ghost predicate AllGood(i: Inputs, cli: Option<Raw>, variable: string, section: string, key: string,
                          good: Raw -> bool)
  {
    (cli.Some? ==> good(cli.value)) && (variable in i.env ==> good(Words(i.env[variable]))) &&
    forall raw :: FileSays(i, section, key, raw) ==> good(raw)
  }

  lemma FileOnly(i: Inputs)
    requires FileOf(i).Ok?
    ensures var l := FileOf(i).value;
      (forall raw :: FileSays(i, "runtime", "data_dir", raw) <==> l.dataDir == Some(raw)) &&
      (forall raw :: FileSays(i, "node", "node_id", raw) <==> l.nodeId == Some(raw)) &&
      (forall raw :: FileSays(i, "node", "compose_subnet", raw) <==> l.subnet == Some(raw)) &&
      (forall raw :: FileSays(i, "node", "startup_timeout", raw) <==> l.startup == Some(raw)) &&
      (forall raw :: FileSays(i, "node", "shutdown_timeout", raw) <==> l.shutdown == Some(raw))
  {
    hide GoodSchema;
  }

  /** What the settings come to, each by the names under which it can be given. */
  lemma SettingsRead(lib: Library, i: Inputs)
    requires Acceptable(lib, i)
    ensures var s := LoadedFrom(lib, i).settings;
      (forall raw :: Decides(i, i.cli.dataDir, "BITHEIM_DATA_DIR", "runtime", "data_dir", raw) ==>
        DataDir(lib, raw) == Ok(s.dataDir)) &&
      (Unset(i, i.cli.dataDir, "BITHEIM_DATA_DIR", "runtime", "data_dir") ==> s.dataDir == lib.expand(".bitheim"))
    ensures var s := LoadedFrom(lib, i).settings;
      (forall raw :: Decides(i, i.cli.nodeId, "BITHEIM_NODE_ID", "node", "node_id", raw) ==>
        NodeId(raw) == Ok(s.nodeId)) &&
      (Unset(i, i.cli.nodeId, "BITHEIM_NODE_ID", "node", "node_id") ==> s.nodeId == "regtest-node-1")
    ensures var s := LoadedFrom(lib, i).settings;
      (forall raw :: Decides(i, i.cli.subnet, "BITHEIM_COMPOSE_SUBNET", "node", "compose_subnet", raw) ==>
        Subnet(lib, raw) == Ok(s.subnet)) &&
      (Unset(i, i.cli.subnet, "BITHEIM_COMPOSE_SUBNET", "node", "compose_subnet") ==> s.subnet == "172.28.0.0/16")
    ensures var s := LoadedFrom(lib, i).settings;
      (forall raw :: Decides(i, i.cli.startup, "BITHEIM_STARTUP_TIMEOUT", "node", "startup_timeout", raw) ==>
        Timeout(lib, raw) == Ok(s.startup)) &&
      (Unset(i, i.cli.startup, "BITHEIM_STARTUP_TIMEOUT", "node", "startup_timeout") ==> s.startup == 30.0)
    ensures var s := LoadedFrom(lib, i).settings;
      (forall raw :: Decides(i, i.cli.shutdown, "BITHEIM_SHUTDOWN_TIMEOUT", "node", "shutdown_timeout", raw) ==>
        Timeout(lib, raw) == Ok(s.shutdown)) &&
      (Unset(i, i.cli.shutdown, "BITHEIM_SHUTDOWN_TIMEOUT", "node", "shutdown_timeout") ==> s.shutdown == 30.0)
  {
    hide DataDir, NodeId, Subnet, Timeout, FileOf, FileSays;
    FileOnly(i);
  }

  /** One path was asked for and leads to a file, or none was and the default leads to a file or nowhere; and
      what is read is text with the two sections and five entries known, and no others. */
  predicate UsableFile(i: Inputs) {
    var target := if i.explicit.Some? then i.explicit else i.default;
    (i.explicit.Some? ==> target.value.File?) && (target.Some? ==> !target.value.NotAFile?) &&
    (target.Some? && target.value.File? ==>
      target.value.contents.Parsed? &&
      var root := target.value.contents.root;
      (forall k :: k in root ==> k == "runtime" || k == "node") &&
      ("runtime" in root ==>
        root["runtime"].Table? && forall k :: k in root["runtime"].entries ==> k == "data_dir") &&
      ("node" in root ==>
        root["node"].Table? && forall k :: k in root["node"].entries ==>
          k == "node_id" || k == "compose_subnet" || k == "startup_timeout" || k == "shutdown_timeout"))
  }

  lemma UsableIff(i: Inputs)
    ensures FileOf(i).Ok? <==> UsableFile(i)
  {
  }

  /** When loading succeeds, by name: the file is usable, and everything any layer gives is good. */
  lemma AcceptableIff(lib: Library, i: Inputs)
    ensures Acceptable(lib, i) <==>
      UsableFile(i) &&
      AllGood(i, i.cli.dataDir, "BITHEIM_DATA_DIR", "runtime", "data_dir", r => DataDir(lib, r).Ok?) &&
      AllGood(i, i.cli.nodeId, "BITHEIM_NODE_ID", "node", "node_id", r => NodeId(r).Ok?) &&
      AllGood(i, i.cli.subnet, "BITHEIM_COMPOSE_SUBNET", "node", "compose_subnet", r => Subnet(lib, r).Ok?) &&
      AllGood(i, i.cli.startup, "BITHEIM_STARTUP_TIMEOUT", "node", "startup_timeout", r => Timeout(lib, r).Ok?) &&
      AllGood(i, i.cli.shutdown, "BITHEIM_SHUTDOWN_TIMEOUT", "node", "shutdown_timeout", r => Timeout(lib, r).Ok?)
  {
    hide DataDir, NodeId, Subnet, Timeout, FileOf, FileSays, UsableFile;
    UsableIff(i);
    if FileOf(i).Ok? {
      FileOnly(i);
      FileGood(lib, i);
    }
  }

  /** The file's part of that. */
  lemma FileGood(lib: Library, i: Inputs)
    requires FileOf(i).Ok?
    ensures LayerValid(lib, FileOf(i).value) <==>
      (forall raw :: FileSays(i, "runtime", "data_dir", raw) ==> DataDir(lib, raw).Ok?) &&
      (forall raw :: FileSays(i, "node", "node_id", raw) ==> NodeId(raw).Ok?) &&
      (forall raw :: FileSays(i, "node", "compose_subnet", raw) ==> Subnet(lib, raw).Ok?) &&
      (forall raw :: FileSays(i, "node", "startup_timeout", raw) ==> Timeout(lib, raw).Ok?) &&
      (forall raw :: FileSays(i, "node", "shutdown_timeout", raw) ==> Timeout(lib, raw).Ok?)
  {
    hide DataDir, NodeId, Subnet, Timeout, FileOf, FileSays;
    FileOnly(i);
    var l := FileOf(i).value;
    assert l.dataDir.Some? ==> FileSays(i, "runtime", "data_dir", l.dataDir.value);
    assert l.nodeId.Some? ==> FileSays(i, "node", "node_id", l.nodeId.value);
    assert l.subnet.Some? ==> FileSays(i, "node", "compose_subnet", l.subnet.value);
    assert l.startup.Some? ==> FileSays(i, "node", "startup_timeout", l.startup.value);
    assert l.shutdown.Some? ==> FileSays(i, "node", "shutdown_timeout", l.shutdown.value);
  }

  /** Where the settings are said to come from, by name. */
  lemma OriginRead(lib: Library, i: Inputs)
    requires Acceptable(lib, i)
    ensures var r := LoadedFrom(lib, i);
      var target := if i.explicit.Some? then i.explicit else i.default;
      var onCli := i.cli.dataDir.Some? || i.cli.nodeId.Some? || i.cli.subnet.Some? || i.cli.startup.Some? ||
                   i.cli.shutdown.Some?;
      var inEnv := "BITHEIM_DATA_DIR" in i.env || "BITHEIM_NODE_ID" in i.env || "BITHEIM_COMPOSE_SUBNET" in i.env ||
                   "BITHEIM_STARTUP_TIMEOUT" in i.env || "BITHEIM_SHUTDOWN_TIMEOUT" in i.env;
      (r.hasFile <==> target.Some? && target.value.File?) &&
      (r.origin == FromCli <==> onCli) && (r.origin == FromEnvironment <==> !onCli && inEnv) &&
      (r.origin == FromFile <==> !onCli && !inEnv && r.hasFile) &&
      (r.origin == FromDefaults <==> !onCli && !inEnv && !r.hasFile)
  {
    hide Effective, LayerValid, FileSettings;
  }

  /** What each validator accepts, and what it makes of it. */
  lemma ValidatorsExact(lib: Library, raw: Raw, text: string, seconds: real)
    ensures NodeId(raw) == Ok(text) <==>
      raw.Words? && text == Strip(raw.s) && text != "" && IsAlphanumeric(text[0]) &&
      forall n :: 0 <= n < |text| ==> IsAlphanumeric(text[n]) || text[n] == '_' || text[n] == '-'
    ensures Subnet(lib, raw) == Ok(text) <==>
      raw.Words? && ParseV4(Strip(raw.s)).Some? && lib.isPrivate(ParseV4(Strip(raw.s)).value) &&
      text == PrintV4(ParseV4(Strip(raw.s)).value)
    ensures DataDir(lib, raw) == Ok(text) <==> raw.Words? && Strip(raw.s) != "" && text == lib.expand(raw.s)
    ensures Timeout(lib, raw) == Ok(seconds) <==>
      seconds > 0.0 &&
      match raw
      case Real(f) => f == Finite(seconds)
      case Whole(n) => lib.intToFloat(n) == Some(seconds)
      case Truth(b) => b && seconds == 1.0
      case Words(s) => Strip(s) != "" && lib.parseFloat(Strip(s)) == Some(Finite(seconds))
      case Other => false
  {
    hide ParseV4, PrintV4, Strip;
  }

  predicate IsAlphanumeric(c: char) { 'a' <= c <= 'z' || 'A' <= c <= 'Z' || '0' <= c <= '9' }

  // ----- The loader -----

  /** `NodeConfiguration.__post_init__`: every setting is validated once more. */
  function Revalidated(lib: Library, s: Settings): Result<Settings> {
    var (id, net, up, down) := (NodeId(Words(s.nodeId)), Subnet(lib, Words(s.subnet)),
                                Timeout(lib, Real(Finite(s.startup))), Timeout(lib, Real(Finite(s.shutdown))));
    if id.Err? then Err(id.error)
    else if net.Err? then Err(net.error)
    else if up.Err? then Err(up.error)
    else if down.Err? then Err(down.error)
    else Ok(Settings(s.dataDir, id.value, net.value, up.value, down.value))
  }

  /** 172.28.0.0/16 is a private block. */
  predicate PrivateDefault(lib: Library) {
    lib.isPrivate(V4(0xAC1C_0000, 16))
  }

  /** The loader's `effective_*` variables, which each layer overwrites. */
  class Loader {
    const lib: Library
    var settings: Settings
    var origin: Origin

    constructor (lib: Library)
      ensures this.lib == lib && settings == Defaults(lib) && origin == FromDefaults
    {
      this.lib := lib;
      settings, origin := Defaults(lib), FromDefaults;
    }

    /** Overwrites with whatever the layer supplies, and fails on the first invalid value. */
    method Apply(layer: Layer, name: Origin) returns (out: Result<()>)
      modifies this
      ensures out.Ok? <==> LayerValid(lib, layer)
      ensures out.Err? ==> FirstError(lib, layer) == Some(out.error)
      ensures out.Ok? ==> settings == Overlay(lib, old(settings), layer)
      ensures origin == if out.Ok? && layer.SetsAny() then name else old(origin)
    {
      hide DataDir, NodeId, Subnet, Timeout;
      var next := settings;
      if layer.dataDir.Some? {
        var r := DataDir(lib, layer.dataDir.value);
        if r.Err? { return Err(r.error); }
        next := next.(dataDir := r.value);
      }
      if layer.nodeId.Some? {
        var r := NodeId(layer.nodeId.value);
        if r.Err? { return Err(r.error); }
        next := next.(nodeId := r.value);
      }
      if layer.subnet.Some? {
        var r := Subnet(lib, layer.subnet.value);
        if r.Err? { return Err(r.error); }
        next := next.(subnet := r.value);
      }
      if layer.startup.Some? {
        var r := Timeout(lib, layer.startup.value);
        if r.Err? { return Err(r.error); }
        next := next.(startup := r.value);
      }
      if layer.shutdown.Some? {
        var r := Timeout(lib, layer.shutdown.value);
        if r.Err? { return Err(r.error); }
        next := next.(shutdown := r.value);
      }
      settings := next;
      if layer.SetsAny() {
        origin := name;
      }
      out := Ok(());
    }

    /** `load_configuration`: it succeeds exactly on acceptable inputs, and then gives each setting
        its highest layer's value. Validating the result again changes nothing. */
    method Load(i: Inputs) returns (out: Result<Loaded>)
      requires settings == Defaults(lib) && origin == FromDefaults && PrivateDefault(lib)
      modifies this
      ensures out.Ok? <==> Acceptable(lib, i)
      ensures out.Ok? ==> out.value == LoadedFrom(lib, i)
      ensures out.Err? ==> LoadError(lib, i) == Some(out.error)
      ensures out == Err(ValueError) <==> Located(i) == Ok(Some(Undecodable))
      ensures out == Err(OtherException) <==> OverflowsFirst(lib, i)
      ensures out.Err? ==> out.error in {ConfigurationError, ValueError, OtherException}
    {
      hide Overlay, Effective, FileLayer, EnvLayer, GoodSchema, PrivateDefault, Defaults;
      hide LayerValid, FirstError, HugeFirst;
      LoadErrorClass(lib, i);
      var located, file := Located(i), FileOf(i);
      if file.Err? {
        return Err(file.error);
      }
      if located.value.Some? {
        origin := FromFile;
      }
      var step := Apply(file.value, FromFile);
      if step.Err? {
        return Err(step.error);
      }
      FirstErrorClass(lib, file.value);
      step := Apply(EnvLayer(i.env), FromEnvironment);
      if step.Err? {
        return Err(step.error);
      }
      FirstErrorClass(lib, EnvLayer(i.env));
      step := Apply(i.cli, FromCli);
      if step.Err? {
        return Err(step.error);
      }
      OverlayIsHighest(lib, file.value, EnvLayer(i.env), i.cli);
      EffectiveIsFixed(lib, file.value, EnvLayer(i.env), i.cli);
      var config := Revalidated(lib, settings);
      out := Ok(Loaded(config.value, located.value.Some?, origin));
    }
  }

  lemma DefaultBlock()
    ensures V4(0xAC1C_0000, 16) == Block(false, 0xAC1C_0000, 16)
  {
    assert Pow2(16) == 0x1_0000 by { Pow2Sum(8, 8); assert Pow2(8) == 256; }
  }

  lemma DefaultDigits()
    ensures Cidr.Decimal(172) == "172" && Cidr.Decimal(28) == "28" && Cidr.Decimal(16) == "16"
  {
    assert Cidr.Decimal(17) == "17" && Cidr.Decimal(2) == "2" && Cidr.Decimal(1) == "1";
  }

  lemma DefaultDots()
    ensures Dotted("172", "28", "0", "0") + ['/'] + "16" == DEFAULT_SUBNET
  {
    assert Dotted("172", "28", "0", "0") == "172.28.0.0";
  }

  lemma DefaultQuad()
    ensures PrintQuad(0xAC1C_0000) ==
            Dotted(Cidr.Decimal(172), Cidr.Decimal(28), Cidr.Decimal(0), Cidr.Decimal(0))
  {
    hide Cidr.Decimal, Dotted;
    var v := 0xAC1C_0000;
    assert v / 0x100_0000 == 172;
    assert v / 0x1_0000 == 0xAC1C && 0xAC1C % 256 == 28;
    assert v / 256 == 0xAC_1C00 && 0xAC_1C00 % 256 == 0;
    assert v % 256 == 0;
  }

  lemma DefaultSubnetText()
    ensures PrintV4(V4(0xAC1C_0000, 16)) == DEFAULT_SUBNET
  {
    hide V4, Cidr.Decimal, Dotted, PrintQuad;
    DefaultBlock();
    DefaultDigits();
    DefaultQuad();
    DefaultDots();
  }

  /** The defaults pass the validators unchanged. */
  lemma DefaultsFixed(lib: Library)
    requires PrivateDefault(lib)
    ensures Revalidated(lib, Defaults(lib)) == Ok(Defaults(lib))
  {
    hide ParseV4, PrintV4, V4, LStrip, RStrip, Strip, ValidNodeId;
    DefaultSubnetText();
    var n := V4(0xAC1C_0000, 16);
    PrintedTight(n);
    ParsePrintV4(n);
    NodeIdIdempotent(DEFAULT_ID);
    assert IdMatch(DEFAULT_ID);
  }

  lemma IdFixed(raw: Option<Raw>, d: string)
    requires NodeId(Words(d)) == Ok(d)
    ensures var v := Chosen(raw, r => NodeId(r), d); NodeId(Words(v)) == Ok(v)
  {
    hide ValidNodeId;
    if raw.Some? && raw.value.Words? {
      NodeIdIdempotent(raw.value.s);
    }
  }

  lemma SubnetFixed(lib: Library, raw: Option<Raw>, d: string)
    requires Subnet(lib, Words(d)) == Ok(d)
    ensures var v := Chosen(raw, r => Subnet(lib, r), d); Subnet(lib, Words(v)) == Ok(v)
  {
    hide NodeId, Subnet, Timeout;
    ValidatorsIdempotent(lib, if raw.Some? then raw.value else Raw.Other);
  }

  lemma TimeoutFixed(lib: Library, raw: Option<Raw>, d: real)
    requires Timeout(lib, Real(Finite(d))) == Ok(d)
    ensures var v := Chosen(raw, r => Timeout(lib, r), d); Timeout(lib, Real(Finite(v))) == Ok(v)
  {
    hide NodeId, Subnet, Timeout;
    ValidatorsIdempotent(lib, if raw.Some? then raw.value else Raw.Other);
  }

  /** So does everything the layers can come to. */
  lemma EffectiveIsFixed(lib: Library, file: Layer, env: Layer, cli: Layer)
    requires PrivateDefault(lib)
    ensures Revalidated(lib, Effective(lib, file, env, cli)) == Ok(Effective(lib, file, env, cli))
  {
    hide NodeId, Subnet, Timeout, DataDir, PrivateDefault, Highest, Chosen;
    DefaultsFixed(lib);
    var d := Defaults(lib);
    IdFixed(Highest(cli.nodeId, env.nodeId, file.nodeId), d.nodeId);
    SubnetFixed(lib, Highest(cli.subnet, env.subnet, file.subnet), d.subnet);
    TimeoutFixed(lib, Highest(cli.startup, env.startup, file.startup), d.startup);
    TimeoutFixed(lib, Highest(cli.shutdown, env.shutdown, file.shutdown), d.shutdown);
  }
}
