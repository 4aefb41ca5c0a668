/** `Parse` on short argument lists, one rule of the flag pass at a time:
    the conflicting pairs in both orders, missing values, the single URL,
    and the flags that set the start URL and the mode. Tokens are described
    by how they are read (`Classify`), so each lemma covers every spelling
    of its flags. The lists hold no config token, so pass 1 yields the
    default base `DefaultBase(env)`; the flag-pass half of each argument is
    the lemma of the same name in `FlagPassCases`. */
module ParseCases {
  import opened Results
  import opened Strings
  import opened Flags
  import opened Args
  import opened ArgsProperties
  import FlagPassCases

  /** The base configuration of a list without config tokens does not set
      both TLS and Tor. */
  predicate SaneBase(env: Env) {
    DefaultBase(env).Ok? && !(DefaultBase(env).value.tls && DefaultBase(env).value.tor)
  }

  /** What `Parse` makes of the outcome of pass 2. */
  function Conclude(env: Env, r: Result<Outcome, ArgError>): Result<Config, ArgError> {
    match r
    case Err(e) => Err(e)
    case Ok(out) => Finish(env, out)
  }

  /** The configuration `Parse` returns when pass 2 finishes with `c` and
      the final checks pass: the mode may still turn non-terminal. */
  function Settled(env: Env, c: Config): Config {
    c.(mode := TtyMode(env, c.mode))
  }

  /** A list without config tokens goes straight to pass 2 on the default base. */
  lemma ParseNoConfig(args: seq<string>, env: Env)
    requires forall k :: 0 <= k < |args| ==> PassOneIgnores(args[k])
    requires DefaultBase(env).Ok?
    ensures Parse(args, env) == Conclude(env, ApplyFlags(args, env, 0, NothingApplied, DefaultBase(env).value))
  {
    LoadBaseIgnoresFlags(args, env);
  }

  /** A list without config tokens whose pass 2 finishes with `c` parses
      to `c`, settled for the terminal, unless `c` sets both TLS and Tor. */
  lemma ParseFinishing(args: seq<string>, env: Env, c: Config)
    requires forall k :: 0 <= k < |args| ==> PassOneIgnores(args[k])
    requires DefaultBase(env).Ok?
    requires FlagPassCases.FinishesWith(ApplyFlags(args, env, 0, NothingApplied, DefaultBase(env).value), c)
    requires !(c.tls && c.tor)
    ensures Parse(args, env) == Ok(Settled(env, c))
  {
    ParseNoConfig(args, env);
  }

  // ------------------------------------------------------ conflicting pairs

  /** `--no-tls` then `--tls` clash. */
  lemma NoTlsThenTls(x: string, y: string, env: Env)
    requires Classify(x) == Known(TlsFlag) && Classify(y) == Known(NoTlsFlag)
    requires DefaultBase(env).Ok?
    ensures Parse([y, x], env) == Err(BothTls)
  {
    ParseNoConfig([y, x], env);
    FlagPassCases.NoTlsThenTls(x, y, env, DefaultBase(env).value);
  }

  /** `--tls` then `--no-tls` clash in a build with TLS support. */
  lemma TlsThenNoTls(x: string, y: string, env: Env)
    requires Classify(x) == Known(TlsFlag) && Classify(y) == Known(NoTlsFlag)
    requires env.tlsFeature && DefaultBase(env).Ok?
    ensures Parse([x, y], env) == Err(BothTls)
  {
    ParseNoConfig([x, y], env);
    FlagPassCases.TlsThenNoTls(x, y, env, DefaultBase(env).value);
  }

  /** Without TLS support, a leading `--tls` is rejected whatever follows. */
  lemma TlsUnsupported(x: string, rest: seq<string>, env: Env)
    requires Classify(x) == Known(TlsFlag) && !env.tlsFeature
    requires LoadBase([x] + rest, env).Ok?
    ensures Parse([x] + rest, env) == Err(NoTlsSupport)
  {
    FlagPassCases.TlsUnsupported(x, rest, env, LoadBase([x] + rest, env).value);
  }

  /** `--no-tor` then `--tor` clash. */
  lemma NoTorThenTor(x: string, y: string, env: Env)
    requires Classify(x) == Known(TorFlag) && Classify(y) == Known(NoTorFlag)
    requires DefaultBase(env).Ok?
    ensures Parse([y, x], env) == Err(BothTor)
  {
    ParseNoConfig([y, x], env);
    FlagPassCases.NoTorThenTor(x, y, env, DefaultBase(env).value);
  }

  /** `--tor` then `--no-tor` clash in a build with Tor support. */
  lemma TorThenNoTor(x: string, y: string, env: Env)
    requires Classify(x) == Known(TorFlag) && Classify(y) == Known(NoTorFlag)
    requires env.torFeature && DefaultBase(env).Ok?
    ensures Parse([x, y], env) == Err(BothTor)
  {
    ParseNoConfig([x, y], env);
    FlagPassCases.TorThenNoTor(x, y, env, DefaultBase(env).value);
  }

  /** Without Tor support, a leading `--tor` is rejected whatever follows. */
  lemma TorUnsupported(x: string, rest: seq<string>, env: Env)
    requires Classify(x) == Known(TorFlag) && !env.torFeature
    requires LoadBase([x] + rest, env).Ok?
    ensures Parse([x] + rest, env) == Err(NoTorSupport)
  {
    FlagPassCases.TorUnsupported(x, rest, env, LoadBase([x] + rest, env).value);
  }

  /** `--autoplay` then `--no-autoplay` clash. */
  lemma AutoplayThenNoAutoplay(x: string, y: string, env: Env)
    requires Classify(x) == Known(AutoplayFlag) && Classify(y) == Known(NoAutoplayFlag)
    requires DefaultBase(env).Ok?
    ensures Parse([x, y], env) == Err(BothAutoplay)
  {
    ParseNoConfig([x, y], env);
    FlagPassCases.AutoplayThenNoAutoplay(x, y, env, DefaultBase(env).value);
  }

  /** `--no-autoplay` then `--autoplay` clash. */
  lemma NoAutoplayThenAutoplay(x: string, y: string, env: Env)
    requires Classify(x) == Known(AutoplayFlag) && Classify(y) == Known(NoAutoplayFlag)
    requires DefaultBase(env).Ok?
    ensures Parse([y, x], env) == Err(BothAutoplay)
  {
    ParseNoConfig([y, x], env);
    FlagPassCases.NoAutoplayThenAutoplay(x, y, env, DefaultBase(env).value);
  }

  /** `--media PROGRAM` then `--no-media` clash. */
  lemma MediaThenNoMedia(m: string, program: string, n: string, env: Env)
    requires Classify(m) == Known(MediaFlag) && Classify(n) == Known(NoMediaFlag)
    requires PassOneIgnores(program) && DefaultBase(env).Ok?
    ensures Parse([m, program, n], env) == Err(BothMedia)
  {
    ParseNoConfig([m, program, n], env);
    FlagPassCases.MediaThenNoMedia(m, program, n, env, DefaultBase(env).value);
  }

  /** `--no-media` then `--media PROGRAM` clash. */
  lemma NoMediaThenMedia(m: string, program: string, n: string, env: Env)
    requires Classify(m) == Known(MediaFlag) && Classify(n) == Known(NoMediaFlag)
    requires PassOneIgnores(program) && DefaultBase(env).Ok?
    ensures Parse([n, m, program], env) == Err(BothMedia)
  {
    ParseNoConfig([n, m, program], env);
    FlagPassCases.NoMediaThenMedia(m, program, n, env, DefaultBase(env).value);
  }

  /** `--no-media` then `--autoplay` is rejected. */
  lemma NoMediaThenAutoplay(n: string, p: string, env: Env)
    requires Classify(n) == Known(NoMediaFlag) && Classify(p) == Known(AutoplayFlag)
    requires DefaultBase(env).Ok?
    ensures Parse([n, p], env) == Err(NoMediaAndAutoplay)
  {
    ParseNoConfig([n, p], env);
    FlagPassCases.NoMediaThenAutoplay(n, p, env, DefaultBase(env).value);
  }

  /** `--autoplay` then `--no-media` is accepted: only the other order is
      checked. */
  lemma AutoplayThenNoMedia(n: string, p: string, env: Env)
    requires Classify(n) == Known(NoMediaFlag) && Classify(p) == Known(AutoplayFlag)
    requires SaneBase(env)
    ensures Parse([p, n], env) == Ok(Settled(env, DefaultBase(env).value.(autoplay := true, media := None)))
  {
    ParseNoConfig([p, n], env);
    FlagPassCases.AutoplayThenNoMedia(n, p, env, DefaultBase(env).value);
  }

  /** `--tls` with `--tor` gets through the flag pass and is rejected by
      the final check. */
  lemma TlsAndTorRejected(x: string, y: string, env: Env)
    requires Classify(x) == Known(TlsFlag) && Classify(y) == Known(TorFlag)
    requires env.tlsFeature && env.torFeature && DefaultBase(env).Ok?
    ensures Parse([x, y], env) == Err(TorAndTls)
  {
    ParseNoConfig([x, y], env);
    FlagPassCases.TlsThenTor(x, y, env, DefaultBase(env).value);
  }

  // ------------------------------------------------------- words and flags

  /** A bare word is the start URL with its white space trimmed. */
  lemma TargetIsTrimmed(u: string, env: Env)
    requires Classify(u) == Bare && SaneBase(env)
    ensures Parse([u], env) == Ok(Settled(env, DefaultBase(env).value.(start := Trim(u))))
  {
    ParseNoConfig([u], env);
    FlagPassCases.TargetIsTrimmed(u, env, DefaultBase(env).value);
  }

  /** A second bare word is rejected and named in the error. */
  lemma SecondTargetRejected(u: string, v: string, env: Env)
    requires Classify(u) == Bare && Classify(v) == Bare
    requires DefaultBase(env).Ok?
    ensures Parse([u, v], env) == Err(UnknownArgument(v))
  {
    ParseNoConfig([u, v], env);
    FlagPassCases.SecondTargetRejected(u, v, env, DefaultBase(env).value);
  }

  /** A token that starts with `-` but spells no flag is rejected and named
      in the error, whatever follows it. */
  lemma UnknownFlagRejected(args: seq<string>, env: Env)
    requires |args| > 0 && Classify(args[0]) == Unknown
    requires LoadBase(args, env).Ok?
    ensures Parse(args, env) == Err(UnknownFlag(args[0]))
  {
  }

  /** `--local` sets the start URL to the local server. */
  lemma LocalSetsStart(l: string, env: Env)
    requires Classify(l) == Known(LocalFlag) && SaneBase(env)
    ensures Parse([l], env) == Ok(Settled(env, DefaultBase(env).value.(start := LocalStart)))
  {
    ParseNoConfig([l], env);
    FlagPassCases.LocalSetsStart(l, env, DefaultBase(env).value);
  }

  // --------------------------------------------------------- missing values

  /** A value-taking flag as the last token has no value. */
  lemma ValueFlagLast(v: string, env: Env)
    requires Classify(v).Known? && TakesValue(Classify(v).flag) && Classify(v) != Known(ConfigFlag)
    requires DefaultBase(env).Ok?
    ensures Classify(v) == Known(WrapFlag) ==> Parse([v], env) == Err(WrapNeedsColumn)
    ensures Classify(v) == Known(MediaFlag) ==> Parse([v], env) == Err(MediaNeedsProgram)
    ensures Classify(v) == Known(EncodingFlag) ==> Parse([v], env) == Err(EncodingNeedsName)
  {
    ParseNoConfig([v], env);
    FlagPassCases.ValueFlagLast(v, env, DefaultBase(env).value);
  }

  /** `--wrap` rejects a following token the column parser does not accept. */
  lemma WrapRejectsColumn(w: string, v: string, env: Env)
    requires Classify(w) == Known(WrapFlag) && PassOneIgnores(v) && env.parseColumn(v).None?
    requires DefaultBase(env).Ok?
    ensures Parse([w, v], env) == Err(WrapNeedsColumn)
  {
    ParseNoConfig([w, v], env);
    FlagPassCases.WrapRejectsColumn(w, v, env, DefaultBase(env).value);
  }

  /** `--wrap` takes the following token as the wrap column. */
  lemma WrapTakesColumn(w: string, v: string, env: Env)
    requires Classify(w) == Known(WrapFlag) && PassOneIgnores(v) && env.parseColumn(v).Some?
    requires SaneBase(env)
    ensures Parse([w, v], env) == Ok(Settled(env, DefaultBase(env).value.(wrap := env.parseColumn(v).value)))
  {
    ParseNoConfig([w, v], env);
    FlagPassCases.WrapTakesColumn(w, v, env, DefaultBase(env).value);
  }

  /** `--media` takes the following token as the media program. */
  lemma MediaTakesProgram(m: string, v: string, env: Env)
    requires Classify(m) == Known(MediaFlag) && PassOneIgnores(v)
    requires SaneBase(env)
    ensures Parse([m, v], env) == Ok(Settled(env, DefaultBase(env).value.(media := Some(v))))
  {
    ParseNoConfig([m, v], env);
    FlagPassCases.MediaTakesProgram(m, v, env, DefaultBase(env).value);
  }

  /** `--encoding` reports a name the catalog rejects with the catalog's
      own message. */
  lemma EncodingRejectsName(e: string, v: string, env: Env)
    requires Classify(e) == Known(EncodingFlag) && PassOneIgnores(v) && env.encodingFromStr(v).Err?
    requires DefaultBase(env).Ok?
    ensures Parse([e, v], env) == Err(EncodingRejected(env.encodingFromStr(v).error))
  {
    ParseNoConfig([e, v], env);
    FlagPassCases.EncodingRejectsName(e, v, env, DefaultBase(env).value);
  }

  /** `--encoding` takes the following token as an encoding name. */
  lemma EncodingTakesName(e: string, v: string, env: Env)
    requires Classify(e) == Known(EncodingFlag) && PassOneIgnores(v) && env.encodingFromStr(v).Ok?
    requires SaneBase(env)
    ensures Parse([e, v], env) == Ok(Settled(env, DefaultBase(env).value.(encoding := env.encodingFromStr(v).value)))
  {
    ParseNoConfig([e, v], env);
    FlagPassCases.EncodingTakesName(e, v, env, DefaultBase(env).value);
  }

  // -------------------------------------------------------------- the mode

  /** `--raw` alone is rejected: it needs a second argument. */
  lemma RawAloneRejected(r: string, env: Env)
    requires Classify(r) == Known(RawFlag) && DefaultBase(env).Ok?
    ensures Parse([r], env) == Err(RawNeedsUrl)
  {
    ParseNoConfig([r], env);
    FlagPassCases.RawAloneRejected(r, env, DefaultBase(env).value);
  }

  /** Any second argument satisfies `--raw`, even `--no-config`, and raw
      mode survives the terminal check. */
  lemma RawCountsEveryArgument(r: string, c: string, env: Env)
    requires Classify(r) == Known(RawFlag) && Classify(c) == Known(NoConfigFlag)
    requires !(env.defaultConfig.tls && env.defaultConfig.tor)
    ensures Parse([r, c], env) == Ok(env.defaultConfig.(mode := Raw))
  {
    var args, d := [r, c], env.defaultConfig;
    assert ScanConfig(args, env, 1, ConfigScan(false, false, d)) == Ok(ConfigScan(true, false, d));
    assert LoadBase(args, env) == Ok(d);
    FlagPassCases.RawCountsEveryArgument(r, c, env, d);
  }

  /** `--print` then `--raw` ends in raw mode: the later flag wins. */
  lemma PrintThenRaw(p: string, r: string, env: Env)
    requires Classify(p) == Known(PrintFlag) && Classify(r) == Known(RawFlag)
    requires SaneBase(env)
    ensures Parse([p, r], env) == Ok(DefaultBase(env).value.(mode := Raw))
  {
    ParseNoConfig([p, r], env);
    FlagPassCases.PrintThenRaw(p, r, env, DefaultBase(env).value);
  }

  /** `--raw` then `--print` ends in print mode, or in the non-terminal
      mode when standard output is not a terminal. */
  lemma RawThenPrint(p: string, r: string, env: Env)
    requires Classify(p) == Known(PrintFlag) && Classify(r) == Known(RawFlag)
    requires SaneBase(env)
    ensures Parse([r, p], env) == Ok(Settled(env, DefaultBase(env).value.(mode := Print)))
  {
    ParseNoConfig([r, p], env);
    FlagPassCases.RawThenPrint(p, r, env, DefaultBase(env).value);
  }

  // ------------------------------------------------ longer lists, in order

  /** `--raw` then a word: raw mode on the trimmed word, whatever the
      terminal. */
  lemma RawWithTarget(r: string, u: string, env: Env)
    requires Classify(r) == Known(RawFlag) && Classify(u) == Bare && SaneBase(env)
    ensures Parse([r, u], env) == Ok(DefaultBase(env).value.(mode := Raw, start := Trim(u)))
  {
    ParseNoConfig([r, u], env);
    FlagPassCases.RawThenTarget(r, u, env, DefaultBase(env).value);
  }

  /** `--print` then a word: print mode on the trimmed word. */
  lemma PrintWithTarget(p: string, u: string, env: Env)
    requires Classify(p) == Known(PrintFlag) && Classify(u) == Bare && SaneBase(env)
    ensures Parse([p, u], env) == Ok(Settled(env, DefaultBase(env).value.(mode := Print, start := Trim(u))))
  {
    ParseNoConfig([p, u], env);
    FlagPassCases.PrintThenTarget(p, u, env, DefaultBase(env).value);
  }

  /** `--tls` then `--local`, when TLS is supported and the base has no Tor. */
  lemma TlsThenLocal(x: string, l: string, env: Env)
    requires Classify(x) == Known(TlsFlag) && Classify(l) == Known(LocalFlag) && env.tlsFeature
    requires DefaultBase(env).Ok? && !DefaultBase(env).value.tor
    ensures Parse([x, l], env) == Ok(Settled(env, DefaultBase(env).value.(tls := true, start := LocalStart)))
  {
    ParseNoConfig([x, l], env);
    FlagPassCases.TlsThenLocal(x, l, env, DefaultBase(env).value);
  }

  /** `--tor` then `--no-tls`, when Tor is supported. */
  lemma TorThenNoTls(t: string, n: string, env: Env)
    requires Classify(t) == Known(TorFlag) && Classify(n) == Known(NoTlsFlag) && env.torFeature
    requires DefaultBase(env).Ok?
    ensures Parse([t, n], env) == Ok(Settled(env, DefaultBase(env).value.(tor := true, tls := false)))
  {
    ParseNoConfig([t, n], env);
    FlagPassCases.TorThenNoTls(t, n, env, DefaultBase(env).value);
  }

  /** `--raw`, `--tls`, `--no-config`: the built-in defaults in raw mode
      with TLS. */
  lemma RawTlsNoConfig(r: string, x: string, c: string, env: Env)
    requires Classify(r) == Known(RawFlag) && Classify(x) == Known(TlsFlag) && Classify(c) == Known(NoConfigFlag)
    requires env.tlsFeature && !env.defaultConfig.tor
    ensures Parse([r, x, c], env) == Ok(env.defaultConfig.(mode := Raw, tls := true))
  {
    var args, d := [r, x, c], env.defaultConfig;
    var s := ConfigScan(false, false, d);
    ScanSkips(args, env, 0, s);
    ScanSkips(args, env, 1, s);
    assert ScanConfig(args, env, 2, s) == Ok(ConfigScan(true, false, d));
    FlagPassCases.RawTlsNoConfig(r, x, c, env, d);
  }

  /** An unknown flag after `--local` is rejected and named. */
  lemma LocalThenUnknown(l: string, x: string, env: Env)
    requires Classify(l) == Known(LocalFlag) && Classify(x) == Unknown && DefaultBase(env).Ok?
    ensures Parse([l, x], env) == Err(UnknownFlag(x))
  {
    ParseNoConfig([l, x], env);
    FlagPassCases.LocalThenUnknown(l, x, env, DefaultBase(env).value);
  }
}
