/** The command-line resolver: `Parse` turns the argument list into a
    `Config` or an `ArgError`, in two passes over the same immutable list.

    Pass 1 (`ScanConfig`, `LoadBase`) looks only at `-C`/`--no-config`,
    `-c`/`--config FILE` and `--config=FILE`, and loads the base
    configuration. Pass 2 (`ApplyFlags`) applies every flag on top of that
    base. Everything the parser asks of its surroundings (the config store,
    the encoding catalog, the column parser, the build features, the test
    build and the terminal probe) is a field of `Env`. */
module Args {
  import opened Results
  import opened Strings
  import opened Flags

  // ---------------------------------------------------------------- data

  datatype Mode = Default | Raw | Print | Help | Version | NoTTY

  /** A resolved text encoding, as produced by the encoding catalog. */
  datatype Encoding = Encoding(name: string)

  /** The settings snapshot. `wide` stands for the display settings that only
      the config file sets and that the parser passes through untouched. */
  datatype Config = Config(
    mode: Mode,
    start: string,
    tls: bool,
    tor: bool,
    wrap: nat,
    media: Option<string>,
    autoplay: bool,
    encoding: Encoding,
    wide: bool)

  /** The start URL `--local` selects. */
  const LocalStart: string := "gopher://127.0.0.1:7070"

  /** The parser's collaborators. */
  datatype Env = Env(
    defaultConfig: Config,                               // Config::default()
    configExists: bool,                                  // config::exists()
    loadDefault: Result<Config, string>,                 // config::load()
    loadFile: string -> Result<Config, string>,          // config::load_file
    encodingFromStr: string -> Result<Encoding, string>, // Encoding::from_str
    parseColumn: string -> Option<nat>,                  // str::parse for --wrap
    tlsFeature: bool,                                    // cfg!(feature = "tls")
    torFeature: bool,                                    // cfg!(feature = "tor")
    testBuild: bool,                                     // cfg!(test)
    stdoutIsTty: bool)                                   // atty::is(Stdout)

  /** What went wrong. The modelled code keeps only the rendered message;
      `Message` produces exactly that text. */
  datatype ArgError =
    | MixedConfig
    | NeedConfigFile
    | LoadingConfig(cause: string)
    | DefaultConfigFailed(cause: string)
    | RawNeedsUrl
    | BothTls
    | BothTor
    | NoTlsSupport
    | NoTorSupport
    | WrapNeedsColumn
    | MediaNeedsProgram
    | BothMedia
    | NoMediaAndAutoplay
    | BothAutoplay
    | EncodingNeedsName
    | EncodingRejected(cause: string)
    | UnknownFlag(token: string)
    | UnknownArgument(token: string)
    | TorAndTls
  {
    function Message(): string {
      match this
      case MixedConfig => "can't mix --config and --no-config"
      case NeedConfigFile => "need a config file"
      case LoadingConfig(e) => LoadingPrefix + e
      case DefaultConfigFailed(e) => e
      case RawNeedsUrl => "--raw needs gopher-url"
      case BothTls => "can't set both --tls and --no-tls"
      case BothTor => "can't set both --tor and --no-tor"
      case NoTlsSupport => "phetch was compiled without TLS support"
      case NoTorSupport => "phetch was compiled without Tor support"
      case WrapNeedsColumn => "--wrap expects a COLUMN arg"
      case MediaNeedsProgram => "--media expects a PROGRAM arg"
      case BothMedia => "can't set both --media and --no-media"
      case NoMediaAndAutoplay => "can't set both --no-media and --autoplay"
      case BothAutoplay => "can't set both --autoplay and --no-autoplay"
      case EncodingNeedsName => "--encoding expects an ENCODING arg"
      case EncodingRejected(e) => e
      case UnknownFlag(a) => UnknownFlagPrefix + a
      case UnknownArgument(a) => UnknownArgumentPrefix + a
      case TorAndTls => "can't set both --tor and --tls"
    }

    /** The errors pass 1 can raise. */
    predicate FromConfigPass() {
      MixedConfig? || NeedConfigFile? || LoadingConfig? || DefaultConfigFailed?
    }
  }

  const LoadingPrefix: string := "error loading config: "
  const UnknownFlagPrefix: string := "unknown flag: "
  const UnknownArgumentPrefix: string := "unknown argument: "

  /** A message that starts with neither `e` nor `u` carries none of the
      prefixes the formatted messages use. */
  lemma Unprefixed(m: string)
    requires |m| > 0 && m[0] != 'e' && m[0] != 'u'
    ensures !StartsWith(m, LoadingPrefix) && !StartsWith(m, UnknownFlagPrefix) && !StartsWith(m, UnknownArgumentPrefix)
  {
    assert LoadingPrefix[0] == 'e' && UnknownFlagPrefix[0] == 'u' && UnknownArgumentPrefix[0] == 'u';
  }

  /** Whether an error's message is written out by the parser itself, as
      opposed to formatted around a text or passed through. */
  predicate FixedMessage(e: ArgError) {
    !(e.LoadingConfig? || e.DefaultConfigFailed? || e.EncodingRejected? || e.UnknownFlag? || e.UnknownArgument?)
  }

  /** What a message carries: the loader's and the encoding lookup's own
      messages pass through unchanged; a load failure and an unknown token
      follow a fixed prefix that no fixed message starts with, so the text
      after it is exactly the cause or the token. */
  lemma MessageKeepsCause(e: ArgError)
    ensures e.DefaultConfigFailed? || e.EncodingRejected? ==> e.Message() == e.cause
    ensures e.LoadingConfig? ==> StartsWith(e.Message(), LoadingPrefix) && e.Message()[|LoadingPrefix|..] == e.cause
    ensures e.UnknownFlag? ==> StartsWith(e.Message(), UnknownFlagPrefix) && e.Message()[|UnknownFlagPrefix|..] == e.token
    ensures e.UnknownArgument? ==>
              StartsWith(e.Message(), UnknownArgumentPrefix) && e.Message()[|UnknownArgumentPrefix|..] == e.token
    ensures FixedMessage(e) ==>
              && !StartsWith(e.Message(), LoadingPrefix)
              && !StartsWith(e.Message(), UnknownFlagPrefix)
              && !StartsWith(e.Message(), UnknownArgumentPrefix)
  {
    if FixedMessage(e) {
      Unprefixed(e.Message());
    }
  }

  // ------------------------------------------------ positions a pass visits

  /** The two passes walk the list differently: pass 1 only lets `-c` eat
      the next token, pass 2 also lets `-w`, `-m` and `-e` eat theirs. */
  datatype Pass = ConfigPass | FlagPass

  predicate Consumes(pass: Pass, t: Token) {
    match pass
    case ConfigPass => t == Known(ConfigFlag)
    case FlagPass => t.Known? && TakesValue(t.flag)
  }

  /** The position the pass looks at after position `i`. */
  function Next(args: seq<string>, pass: Pass, i: nat): (n: nat)
    requires i < |args|
    ensures i < n <= |args|
  {
    if Consumes(pass, Classify(args[i])) && i + 1 < |args| then i + 2 else i + 1
  }

  /** How many of the positions the pass visits from `i` on hold a token read
      as `t`. */
  function Occurrences(args: seq<string>, pass: Pass, i: nat, t: Token): nat
    decreases |args| - i
  {
    if i >= |args| then 0
    else (if Classify(args[i]) == t then 1 else 0) + Occurrences(args, pass, Next(args, pass, i), t)
  }

  /** The pass, started at `i`, looks at position `k`. */
  predicate Visits(args: seq<string>, pass: Pass, i: nat, k: nat)
    decreases |args| - i
  {
    i <= k < |args| && (i == k || Visits(args, pass, Next(args, pass, i), k))
  }

  // -------------------------------------------------------------- pass 1

  datatype ConfigScan = ConfigScan(noConfig: bool, config: bool, cfg: Config)

  /** The file a config token at position `i` names, if it names one. */
  function NamedFile(args: seq<string>, i: nat): Option<string>
    requires i < |args|
  {
    match Classify(args[i])
    case Known(ConfigFlag) => if i + 1 < |args| then Some(args[i + 1]) else None
    case ConfigAssign => AfterFirst(args[i], '=')
    case _ => None
  }

  /** The last file pass 1 loads from position `i` on. */
  function LastConfigFile(args: seq<string>, i: nat): (r: Option<string>)
    decreases |args| - i
    ensures r.Some? ==> Occurrences(args, ConfigPass, i, Known(ConfigFlag)) + Occurrences(args, ConfigPass, i, ConfigAssign) > 0
  {
    if i >= |args| then None
    else
      match LastConfigFile(args, Next(args, ConfigPass, i))
      case Some(f) => Some(f)
      case None => NamedFile(args, i)
  }

  /** Pass 1 from position `i`, in state `s`. */
  function ScanConfig(args: seq<string>, env: Env, i: nat, s: ConfigScan): (r: Result<ConfigScan, ArgError>)
    decreases |args| - i
    ensures r.Err? ==> r.error.FromConfigPass()
    ensures (&& Occurrences(args, ConfigPass, i, Known(NoConfigFlag)) == 0
             && Occurrences(args, ConfigPass, i, Known(ConfigFlag)) == 0
             && Occurrences(args, ConfigPass, i, ConfigAssign) == 0) ==> r == Ok(s)
    ensures r.Ok? ==> r.value.noConfig == (s.noConfig || Occurrences(args, ConfigPass, i, Known(NoConfigFlag)) > 0)
    ensures r.Ok? ==>
              (r.value.config ==
               (s.config || Occurrences(args, ConfigPass, i, Known(ConfigFlag)) + Occurrences(args, ConfigPass, i, ConfigAssign) > 0))
    ensures r.Ok? && !(s.noConfig && s.config) ==> !(r.value.noConfig && r.value.config)
  {
    if i >= |args| then Ok(s)
    else
      match Classify(args[i])
      case Known(NoConfigFlag) =>
        if s.config then Err(MixedConfig)
        else ScanConfig(args, env, i + 1, s.(noConfig := true))
      case Known(ConfigFlag) =>
        if s.noConfig then Err(MixedConfig)
        else if i + 1 < |args| then
          (match env.loadFile(args[i + 1])
           case Err(e) => Err(LoadingConfig(e))
           case Ok(c) => ScanConfig(args, env, i + 2, ConfigScan(s.noConfig, true, c)))
        else Err(NeedConfigFile)
      case ConfigAssign =>
        if s.noConfig then Err(MixedConfig)
        else
          (match AfterFirst(args[i], '=')
           case None => Err(NeedConfigFile)
           case Some(file) =>
             match env.loadFile(file)
             case Err(e) => Err(LoadingConfig(e))
             case Ok(c) => ScanConfig(args, env, i + 1, ConfigScan(s.noConfig, true, c)))
      case _ => ScanConfig(args, env, i + 1, s)
  }

  /** Pass 1 ends on the configuration of the last file it loads, or on the
      one it started with when it loads none. */
  lemma {:induction false} ScanKeepsLastFile(args: seq<string>, env: Env, i: nat, s: ConfigScan)
    requires ScanConfig(args, env, i, s).Ok?
    decreases |args| - i
    ensures match LastConfigFile(args, i)
            case Some(f) => env.loadFile(f) == Ok(ScanConfig(args, env, i, s).value.cfg)
            case None => ScanConfig(args, env, i, s).value.cfg == s.cfg
  {
    if i < |args| {
      match Classify(args[i])
      case Known(NoConfigFlag) =>
        ScanKeepsLastFile(args, env, i + 1, s.(noConfig := true));
      case Known(ConfigFlag) =>
        ScanKeepsLastFile(args, env, i + 2, ConfigScan(s.noConfig, true, env.loadFile(args[i + 1]).value));
      case ConfigAssign =>
        var file := AfterFirst(args[i], '=').value;
        ScanKeepsLastFile(args, env, i + 1, ConfigScan(s.noConfig, true, env.loadFile(file).value));
      case _ =>
        ScanKeepsLastFile(args, env, i + 1, s);
    }
  }

  /** The base configuration when the arguments name no config source: the
      default file if it exists (outside test builds), else the defaults. */
  function DefaultBase(env: Env): (r: Result<Config, ArgError>)
    ensures env.testBuild || !env.configExists ==> r == Ok(env.defaultConfig)
    ensures !env.testBuild && env.configExists ==> (r.Ok? <==> env.loadDefault.Ok?)
    ensures r.Ok? && !env.testBuild && env.configExists ==> env.loadDefault == Ok(r.value)
    ensures r.Err? ==> r.error.DefaultConfigFailed? && env.loadDefault == Err(r.error.cause)
  {
    if !env.testBuild && env.configExists then
      match env.loadDefault
      case Err(e) => Err(DefaultConfigFailed(e))
      case Ok(c) => Ok(c)
    else Ok(env.defaultConfig)
  }

  /** No config-related token at a position pass 1 visits. */
  predicate NoConfigTokens(args: seq<string>) {
    && Occurrences(args, ConfigPass, 0, Known(NoConfigFlag)) == 0
    && Occurrences(args, ConfigPass, 0, Known(ConfigFlag)) == 0
    && Occurrences(args, ConfigPass, 0, ConfigAssign) == 0
  }

  /** `--no-config` and a config file both requested by pass-1 tokens. */
  predicate MixesConfig(args: seq<string>) {
    && Occurrences(args, ConfigPass, 0, Known(NoConfigFlag)) > 0
    && Occurrences(args, ConfigPass, 0, Known(ConfigFlag)) + Occurrences(args, ConfigPass, 0, ConfigAssign) > 0
  }

  /** Pass 1 as a whole: the base configuration the flags are applied to. */
  function LoadBase(args: seq<string>, env: Env): (r: Result<Config, ArgError>)
    ensures r.Err? ==> r.error.FromConfigPass()
    ensures r.Ok? ==> !MixesConfig(args)
    ensures NoConfigTokens(args) ==> r == DefaultBase(env)
    ensures r.Ok? && Occurrences(args, ConfigPass, 0, Known(NoConfigFlag)) > 0 ==> r.value == env.defaultConfig
    ensures r.Ok? && LastConfigFile(args, 0).Some? ==> env.loadFile(LastConfigFile(args, 0).value) == Ok(r.value)
  {
    var s :- ScanConfig(args, env, 0, ConfigScan(false, false, env.defaultConfig));
    ScanKeepsLastFile(args, env, 0, ConfigScan(false, false, env.defaultConfig));
    if !s.config && !s.noConfig then DefaultBase(env) else Ok(s.cfg)
  }

  // -------------------------------------------------------------- pass 2

  /** Which flags pass 2 has applied so far, and whether it has taken the URL. */
  datatype Applied = Applied(
    url: bool, tls: bool, noTls: bool, tor: bool, noTor: bool,
    media: bool, noMedia: bool, autoplay: bool, noAutoplay: bool)

  const NothingApplied := Applied(false, false, false, false, false, false, false, false, false)

  /** No flag together with its opposite. */
  predicate Consistent(a: Applied) {
    !(a.tls && a.noTls) && !(a.tor && a.noTor) && !(a.media && a.noMedia) && !(a.autoplay && a.noAutoplay)
  }

  /** How pass 2 ends without an error: stopped by `--help`/`--version`, or
      after the last token. */
  datatype Outcome = Stopped(cfg: Config) | Finished(cfg: Config, applied: Applied)

  /** An `--autoplay` follows a `--no-media` among the positions pass 2 visits from `i`. */
  predicate AutoplayAfterNoMedia(args: seq<string>, i: nat)
    decreases |args| - i
  {
    i < |args| &&
    ((Classify(args[i]) == Known(NoMediaFlag) && Occurrences(args, FlagPass, Next(args, FlagPass, i), Known(AutoplayFlag)) > 0)
     || AutoplayAfterNoMedia(args, Next(args, FlagPass, i)))
  }

  function Count(args: seq<string>, i: nat, f: Flag): nat {
    Occurrences(args, FlagPass, i, Known(f))
  }

  /** The value a boolean setting ends with when `on` sets it, `off` clears it
      and the two were not both given. */
  function Toggle(prior: bool, on: nat, off: nat): bool {
    if on > 0 then true else if off > 0 then false else prior
  }

  /** Records that pass 2 applied a token read as `t`. */
  function Mark(a: Applied, t: Token): Applied {
    Applied(
      a.url || t == Bare,
      a.tls || t == Known(TlsFlag),
      a.noTls || t == Known(NoTlsFlag),
      a.tor || t == Known(TorFlag),
      a.noTor || t == Known(NoTorFlag),
      a.media || t == Known(MediaFlag),
      a.noMedia || t == Known(NoMediaFlag),
      a.autoplay || t == Known(AutoplayFlag),
      a.noAutoplay || t == Known(NoAutoplayFlag))
  }

  /** The result of one iteration of pass 2. */
  datatype Step = Continue(applied: Applied, cfg: Config) | Halt(cfg: Config) | Fail(error: ArgError)

  /** One iteration of pass 2 for a token that spells flag `f`. `value` is
      the token after it, if any, which a value-taking flag consumes;
      `argCount` is the length of the whole argument list. */
  function ApplyFlag(env: Env, f: Flag, value: Option<string>, argCount: nat, a: Applied, cfg: Config): Step {
    var a' := Mark(a, Known(f));
    match f
    case VersionFlag => Halt(cfg.(mode := Version))
    case HelpFlag => Halt(cfg.(mode := Help))
    case RawFlag => if argCount > 1 then Continue(a', cfg.(mode := Raw)) else Fail(RawNeedsUrl)
    case PrintFlag => Continue(a', cfg.(mode := Print))
    case LocalFlag => Continue(a', cfg.(start := LocalStart))
    case NoConfigFlag => Continue(a', cfg)
    case ConfigFlag => Continue(a', cfg)
    case TlsFlag =>
      if a.noTls then Fail(BothTls)
      else if !env.tlsFeature then Fail(NoTlsSupport)
      else Continue(a', cfg.(tls := true))
    case NoTlsFlag => if a.tls then Fail(BothTls) else Continue(a', cfg.(tls := false))
    case TorFlag =>
      if a.noTor then Fail(BothTor)
      else if !env.torFeature then Fail(NoTorSupport)
      else Continue(a', cfg.(tor := true))
    case NoTorFlag => if a.tor then Fail(BothTor) else Continue(a', cfg.(tor := false))
    case WrapFlag =>
      (match value
       case None => Fail(WrapNeedsColumn)
       case Some(v) =>
         match env.parseColumn(v)
         case None => Fail(WrapNeedsColumn)
         case Some(col) => Continue(a', cfg.(wrap := col)))
    case MediaFlag =>
      if a.noMedia then Fail(BothMedia)
      else
        (match value
         case None => Fail(MediaNeedsProgram)
         case Some(v) => Continue(a', cfg.(media := Some(v))))
    case NoMediaFlag => if a.media then Fail(BothMedia) else Continue(a', cfg.(media := None))
    case AutoplayFlag =>
      if a.noMedia then Fail(NoMediaAndAutoplay)
      else if a.noAutoplay then Fail(BothAutoplay)
      else Continue(a', cfg.(autoplay := true))
    case NoAutoplayFlag => if a.autoplay then Fail(BothAutoplay) else Continue(a', cfg.(autoplay := false))
    case EncodingFlag =>
      (match value
       case None => Fail(EncodingNeedsName)
       case Some(v) =>
         match env.encodingFromStr(v)
         case Err(e) => Fail(EncodingRejected(e))
         case Ok(enc) => Continue(a', cfg.(encoding := enc)))
  }

  /** One iteration of pass 2: the token `arg`, read as `t`, with flags `a`
      applied so far to `cfg`. */
  function ApplyToken(env: Env, t: Token, arg: string, value: Option<string>, argCount: nat, a: Applied, cfg: Config): (s: Step)
    ensures s.Halt? ==>
              || (t == Known(HelpFlag) && s.cfg == cfg.(mode := Help))
              || (t == Known(VersionFlag) && s.cfg == cfg.(mode := Version))
    ensures s.Continue? ==> t != Known(HelpFlag) && t != Known(VersionFlag) && t != Unknown && s.applied == Mark(a, t)
    ensures s == Fail(RawNeedsUrl) ==> argCount <= 1 && t == Known(RawFlag)
  {
    match t
    case Known(f) => ApplyFlag(env, f, value, argCount, a, cfg)
    case ConfigAssign => Continue(a, cfg)
    case Bare => if a.url then Fail(UnknownArgument(arg)) else Continue(Mark(a, Bare), cfg.(start := Trim(arg)))
    case Unknown => Fail(UnknownFlag(arg))
  }

  /** The token after position `i`, which a value-taking flag at `i` reads. */
  function ValueAfter(args: seq<string>, i: nat): Option<string> {
    if i + 1 < |args| then Some(args[i + 1]) else None
  }

  /** Pass 2 at position `i` (which must be in range). */
  function StepAt(args: seq<string>, env: Env, i: nat, a: Applied, cfg: Config): Step
    requires i < |args|
  {
    ApplyToken(env, Classify(args[i]), args[i], ValueAfter(args, i), |args|, a, cfg)
  }

  /** Pass 2 from position `i`, with flags `a` applied so far to `cfg`. */
  function ApplyFlags(args: seq<string>, env: Env, i: nat, a: Applied, cfg: Config): (r: Result<Outcome, ArgError>)
    decreases |args| - i
    ensures r.Ok? && r.value.Stopped? ==>
              || (r.value.cfg.mode == Help && Count(args, i, HelpFlag) > 0)
              || (r.value.cfg.mode == Version && Count(args, i, VersionFlag) > 0)
    ensures r.Ok? && r.value.Finished? ==>
              && Count(args, i, HelpFlag) == 0 && Count(args, i, VersionFlag) == 0
              && Occurrences(args, FlagPass, i, Unknown) == 0
    ensures r == Err(RawNeedsUrl) ==> |args| <= 1 && Count(args, i, RawFlag) > 0
  {
    if i >= |args| then Ok(Finished(cfg, a))
    else
      match StepAt(args, env, i, a, cfg)
      case Fail(e) => Err(e)
      case Halt(c) => Ok(Stopped(c))
      case Continue(a', c) => ApplyFlags(args, env, Next(args, FlagPass, i), a', c)
  }

  /** Pass 2 stops at a help or version flag it reaches. */
  predicate StopsEarly(args: seq<string>) {
    Count(args, 0, HelpFlag) + Count(args, 0, VersionFlag) > 0
  }

  /** Raw output is left alone off a terminal; every other mode becomes the
      non-terminal mode there (never in test builds). */
  function TtyMode(env: Env, m: Mode): (r: Mode)
    ensures r == m || r == NoTTY
    ensures r == Raw <==> m == Raw
    ensures env.testBuild || env.stdoutIsTty ==> r == m
    ensures !env.testBuild && !env.stdoutIsTty ==> r == Raw || r == NoTTY
  {
    if !env.testBuild && !env.stdoutIsTty && m != Raw then NoTTY else m
  }

  /** Settling the mode a second time changes nothing. */
  lemma TtyModeIdempotent(env: Env, m: Mode)
    ensures TtyMode(env, TtyMode(env, m)) == TtyMode(env, m)
  {
  }

  /** After pass 2: a stop at `--help`/`--version` is returned as is;
      otherwise TLS with Tor is rejected and the terminal probe may change
      the mode. */
  function Finish(env: Env, out: Outcome): (r: Result<Config, ArgError>)
    ensures r.Ok? ==> r.value == out.cfg.(mode := r.value.mode)
    ensures r.Err? ==> r == Err(TorAndTls) && out.Finished? && out.cfg.tls && out.cfg.tor
    ensures out.Finished? && !(out.cfg.tls && out.cfg.tor) ==> r.Ok?
    ensures r.Ok? && out.Finished? ==> !(r.value.tls && r.value.tor) && r.value.mode == TtyMode(env, out.cfg.mode)
    ensures out.Stopped? ==> r.Ok? && r.value.mode == out.cfg.mode
  {
    match out
    case Stopped(cfg) => Ok(cfg)
    case Finished(cfg, _) =>
      if cfg.tor && cfg.tls then Err(TorAndTls)
      else Ok(cfg.(mode := TtyMode(env, cfg.mode)))
  }

  /** `args::parse`: pass 1, pass 2, then `Finish`. */
  function Parse(args: seq<string>, env: Env): (r: Result<Config, ArgError>)
    ensures r.Ok? ==> !MixesConfig(args)
    ensures r.Ok? && !StopsEarly(args) ==> !(r.value.tls && r.value.tor)
    ensures r == Err(RawNeedsUrl) ==> |args| == 1 && Classify(args[0]) == Known(RawFlag)
  {
    var base :- LoadBase(args, env);
    var out :- ApplyFlags(args, env, 0, NothingApplied, base);
    Finish(env, out)
  }
}
