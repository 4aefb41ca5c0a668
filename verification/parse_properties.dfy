/** Properties of `Parse` as a whole: what it accepts, what it rejects and
    with which error, and what the accepted configuration holds. Tokens are
    described by how they are read (`Classify`); `Flags.ClassifySpells`
    ties that reading to the spellings. */
module ParseProperties {
  import opened Results
  import opened Strings
  import opened Flags
  import opened Args
  import opened ArgsProperties

  // ------------------------------------------------- accepted argument lists

  /** An accepted list that pass 2 reads to the end never holds a flag and
      its opposite, never `--autoplay` after `--no-media`, holds at most one
      URL and no unknown flag, and holds `--raw` only beside another
      argument. */
  lemma ParseAcceptsOnlyConsistentFlags(args: seq<string>, env: Env)
    requires Parse(args, env).Ok? && !StopsEarly(args)
    ensures !(Count(args, 0, TlsFlag) > 0 && Count(args, 0, NoTlsFlag) > 0)
    ensures !(Count(args, 0, TorFlag) > 0 && Count(args, 0, NoTorFlag) > 0)
    ensures !(Count(args, 0, MediaFlag) > 0 && Count(args, 0, NoMediaFlag) > 0)
    ensures !(Count(args, 0, AutoplayFlag) > 0 && Count(args, 0, NoAutoplayFlag) > 0)
    ensures !AutoplayAfterNoMedia(args, 0)
    ensures Occurrences(args, FlagPass, 0, Bare) <= 1
    ensures Occurrences(args, FlagPass, 0, Unknown) == 0
    ensures Count(args, 0, RawFlag) > 0 ==> |args| > 1
  {
    var base := LoadBase(args, env).value;
    ApplyFlagsExcludes(args, env, 0, NothingApplied, base);
    ApplyFlagsOrderRules(args, env, 0, NothingApplied, base);
  }

  /** The configuration an accepted list that pass 2 reads to the end
      produces, relative to the base pass 1 loaded. */
  lemma ParseSettings(args: seq<string>, env: Env)
    requires Parse(args, env).Ok? && !StopsEarly(args)
    ensures var base := LoadBase(args, env).value;
            var c := Parse(args, env).value;
            && c.tls == Toggle(base.tls, Count(args, 0, TlsFlag), Count(args, 0, NoTlsFlag))
            && c.tor == Toggle(base.tor, Count(args, 0, TorFlag), Count(args, 0, NoTorFlag))
            && !(c.tls && c.tor)
            && c.autoplay == Toggle(base.autoplay, Count(args, 0, AutoplayFlag), Count(args, 0, NoAutoplayFlag))
            && (Count(args, 0, MediaFlag) > 0 ==> c.media.Some?)
            && (Count(args, 0, NoMediaFlag) > 0 ==> c.media.None?)
            && (Count(args, 0, MediaFlag) == 0 && Count(args, 0, NoMediaFlag) == 0 ==> c.media == base.media)
            && (Count(args, 0, WrapFlag) == 0 ==> c.wrap == base.wrap)
            && (Count(args, 0, EncodingFlag) == 0 ==> c.encoding == base.encoding)
            && (Count(args, 0, RawFlag) == 0 && Count(args, 0, PrintFlag) == 0 ==> c.mode == TtyMode(env, base.mode))
            && (Count(args, 0, LocalFlag) == 0 && Occurrences(args, FlagPass, 0, Bare) == 0 ==> c.start == base.start)
            && c.wide == base.wide
  {
    var base := LoadBase(args, env).value;
    ApplyFlagsToggles(args, env, 0, NothingApplied, base);
    ApplyFlagsSettings(args, env, 0, NothingApplied, base);
  }

  /** The settings an accepted list that pass 2 reads to the end takes from
      the last flag of their kind: the value after the last `--wrap`,
      `--encoding` and `--media`, the mode of the last `--raw` or `--print`
      (then settled for the terminal), the start URL of the last `--local`
      or bare word. */
  lemma ParseLastFlagWins(args: seq<string>, env: Env)
    requires Parse(args, env).Ok? && !StopsEarly(args)
    ensures var c := Parse(args, env).value;
            var w := LastAt(args, FlagPass, 0, {Known(WrapFlag)});
            var e := LastAt(args, FlagPass, 0, {Known(EncodingFlag)});
            var m := LastAt(args, FlagPass, 0, {Known(MediaFlag)});
            var md := LastAt(args, FlagPass, 0, {Known(RawFlag), Known(PrintFlag)});
            var st := LastAt(args, FlagPass, 0, {Known(LocalFlag), Bare});
            && (w.Some? ==> ValueAfter(args, w.value).Some? && env.parseColumn(ValueAfter(args, w.value).value) == Some(c.wrap))
            && (e.Some? ==> ValueAfter(args, e.value).Some? && env.encodingFromStr(ValueAfter(args, e.value).value) == Ok(c.encoding))
            && (m.Some? ==> ValueAfter(args, m.value).Some? && c.media == ValueAfter(args, m.value))
            && (md.Some? ==> c.mode == TtyMode(env, if Classify(args[md.value]) == Known(RawFlag) then Raw else Print))
            && (st.Some? ==> c.start == (if Classify(args[st.value]) == Bare then Trim(args[st.value]) else LocalStart))
  {
    var base := LoadBase(args, env).value;
    ApplyFlagsWrap(args, env, 0, NothingApplied, base);
    ApplyFlagsEncoding(args, env, 0, NothingApplied, base);
    ApplyFlagsMedia(args, env, 0, NothingApplied, base);
    ApplyFlagsMode(args, env, 0, NothingApplied, base);
    ApplyFlagsStart(args, env, 0, NothingApplied, base);
  }

  /** Unless pass 2 stops early, a list that is not run in a terminal ends
      in raw mode or in the non-terminal mode. */
  lemma ParseOffTerminal(args: seq<string>, env: Env)
    requires Parse(args, env).Ok? && !StopsEarly(args)
    requires !env.testBuild && !env.stdoutIsTty
    ensures Parse(args, env).value.mode == Raw || Parse(args, env).value.mode == NoTTY
  {
  }

  // ----------------------------------------------------- help and version

  /** `--help` or `--version` first: after pass 1, nothing else in the list
      is examined, not even the TLS/Tor check or the terminal probe. */
  lemma HelpOrVersionFirst(args: seq<string>, env: Env)
    requires |args| > 0
    requires Classify(args[0]) == Known(HelpFlag) || Classify(args[0]) == Known(VersionFlag)
    ensures Parse(args, env) ==
            match LoadBase(args, env)
            case Err(e) => Err(e)
            case Ok(b) => Ok(b.(mode := if Classify(args[0]) == Known(HelpFlag) then Help else Version))
  {
  }

  /** A `--help` or `--version` that pass 2 reaches, at any position, ends
      the parse: the configuration built by the tokens before it, in that
      flag's mode, without the TLS/Tor check or the terminal probe. Pass 2
      reads nothing after it (`ArgsProperties.HelpIgnoresRest`). */
  lemma ParseStopsAtHelpOrVersion(args: seq<string>, env: Env, k: nat)
    requires Visits(args, FlagPass, 0, k)
    requires Classify(args[k]) == Known(HelpFlag) || Classify(args[k]) == Known(VersionFlag)
    ensures LoadBase(args, env).Err? ==> Parse(args, env) == Err(LoadBase(args, env).error)
    ensures LoadBase(args, env).Ok? ==>
              var s := RunUntil(args, env, 0, NothingApplied, LoadBase(args, env).value, k);
              Parse(args, env) ==
                if s.Continue? then Ok(s.cfg.(mode := StopMode(Classify(args[k]))))
                else if s.Halt? then Ok(s.cfg)
                else Err(s.error)
  {
    if LoadBase(args, env).Ok? {
      ApplyFlagsStopsAt(args, env, 0, NothingApplied, LoadBase(args, env).value, k);
    }
  }

  // -------------------------------------------- errors at any position

  /** Pass 1 succeeds and pass 2 reaches position `k` still going, with the
      record `a` of the flags applied before `k` and the configuration `c`
      they built. */
  predicate ReachesAt(args: seq<string>, env: Env, k: nat, a: Applied, c: Config) {
    && LoadBase(args, env).Ok?
    && Visits(args, FlagPass, 0, k)
    && RunUntil(args, env, 0, NothingApplied, LoadBase(args, env).value, k) == Continue(a, c)
  }

  /** A token that pass 2 reaches still going and that fails there ends the
      parse with its own error: nothing after it is read, and the TLS/Tor
      check and the terminal probe are not reached. */
  lemma ParseFailsAt(args: seq<string>, env: Env, k: nat, a: Applied, c: Config)
    requires ReachesAt(args, env, k, a, c)
    ensures StepAt(args, env, k, a, c).Fail? ==> Parse(args, env) == Err(StepAt(args, env, k, a, c).error)
  {
    ApplyFlagsReaches(args, env, 0, NothingApplied, LoadBase(args, env).value, k);
  }

  /** An unknown flag at any position pass 2 reaches is rejected by name,
      and so is a bare word once the URL is taken (`Args.MessageKeepsCause`
      gives the message text). */
  lemma ParseUnknownAt(args: seq<string>, env: Env, k: nat, a: Applied, c: Config)
    requires ReachesAt(args, env, k, a, c)
    ensures Classify(args[k]) == Unknown ==> Parse(args, env) == Err(UnknownFlag(args[k]))
    ensures Classify(args[k]) == Bare && a.url ==> Parse(args, env) == Err(UnknownArgument(args[k]))
  {
    ParseFailsAt(args, env, k, a, c);
    TokenRejects(env, Classify(args[k]), args[k], ValueAfter(args, k), |args|, a, c);
  }

  /** A flag at any position pass 2 reaches whose opposite was applied
      before it is rejected with that pair's message; `--autoplay` after
      `--no-media` has its own message, which takes precedence. */
  lemma ParseClashAt(args: seq<string>, env: Env, k: nat, a: Applied, c: Config)
    requires ReachesAt(args, env, k, a, c)
    ensures var u := Classify(args[k]);
            && (u == Known(TlsFlag) && a.noTls ==> Parse(args, env) == Err(BothTls))
            && (u == Known(NoTlsFlag) && a.tls ==> Parse(args, env) == Err(BothTls))
            && (u == Known(TorFlag) && a.noTor ==> Parse(args, env) == Err(BothTor))
            && (u == Known(NoTorFlag) && a.tor ==> Parse(args, env) == Err(BothTor))
            && (u == Known(MediaFlag) && a.noMedia ==> Parse(args, env) == Err(BothMedia))
            && (u == Known(NoMediaFlag) && a.media ==> Parse(args, env) == Err(BothMedia))
            && (u == Known(AutoplayFlag) && a.noMedia ==> Parse(args, env) == Err(NoMediaAndAutoplay))
            && (u == Known(AutoplayFlag) && !a.noMedia && a.noAutoplay ==> Parse(args, env) == Err(BothAutoplay))
            && (u == Known(NoAutoplayFlag) && a.autoplay ==> Parse(args, env) == Err(BothAutoplay))
  {
    ParseFailsAt(args, env, k, a, c);
    TokenClashes(env, Classify(args[k]), args[k], ValueAfter(args, k), |args|, a, c);
  }

  /** A flag at any position pass 2 reaches that the build cannot honour, or
      that lacks a usable value, is rejected with its own message. */
  lemma ParseMissingValueAt(args: seq<string>, env: Env, k: nat, a: Applied, c: Config)
    requires ReachesAt(args, env, k, a, c)
    ensures var u := Classify(args[k]);
            && (u == Known(TlsFlag) && !a.noTls && !env.tlsFeature ==> Parse(args, env) == Err(NoTlsSupport))
            && (u == Known(TorFlag) && !a.noTor && !env.torFeature ==> Parse(args, env) == Err(NoTorSupport))
            && (u == Known(WrapFlag) && (k + 1 == |args| || env.parseColumn(args[k + 1]).None?) ==>
                  Parse(args, env) == Err(WrapNeedsColumn))
            && (u == Known(MediaFlag) && !a.noMedia && k + 1 == |args| ==> Parse(args, env) == Err(MediaNeedsProgram))
            && (u == Known(EncodingFlag) && k + 1 == |args| ==> Parse(args, env) == Err(EncodingNeedsName))
            && (u == Known(EncodingFlag) && k + 1 < |args| && env.encodingFromStr(args[k + 1]).Err? ==>
                  Parse(args, env) == Err(EncodingRejected(env.encodingFromStr(args[k + 1]).error)))
  {
    ParseFailsAt(args, env, k, a, c);
    TokenLacks(env, Classify(args[k]), args[k], ValueAfter(args, k), |args|, a, c);
  }

  /** The same rejections stated by position: a second bare word, or a flag
      after its opposite, at any position pass 2 reaches still going. */
  lemma ParseRejectsAfter(args: seq<string>, env: Env, j: nat, k: nat, a: Applied, c: Config)
    requires ReachesAt(args, env, k, a, c)
    requires Visits(args, FlagPass, 0, j) && j < k
    ensures var t, u := Classify(args[j]), Classify(args[k]);
            && (t == Bare && u == Bare ==> Parse(args, env) == Err(UnknownArgument(args[k])))
            && (t == Known(NoTlsFlag) && u == Known(TlsFlag) ==> Parse(args, env) == Err(BothTls))
            && (t == Known(TlsFlag) && u == Known(NoTlsFlag) ==> Parse(args, env) == Err(BothTls))
            && (t == Known(NoTorFlag) && u == Known(TorFlag) ==> Parse(args, env) == Err(BothTor))
            && (t == Known(TorFlag) && u == Known(NoTorFlag) ==> Parse(args, env) == Err(BothTor))
            && (t == Known(NoMediaFlag) && u == Known(MediaFlag) ==> Parse(args, env) == Err(BothMedia))
            && (t == Known(MediaFlag) && u == Known(NoMediaFlag) ==> Parse(args, env) == Err(BothMedia))
            && (t == Known(NoMediaFlag) && u == Known(AutoplayFlag) ==> Parse(args, env) == Err(NoMediaAndAutoplay))
            && (t == Known(NoAutoplayFlag) && u == Known(AutoplayFlag) && !a.noMedia ==> Parse(args, env) == Err(BothAutoplay))
            && (t == Known(AutoplayFlag) && u == Known(NoAutoplayFlag) ==> Parse(args, env) == Err(BothAutoplay))
  {
    var t := Classify(args[j]);
    RunUntilMarks(args, env, 0, NothingApplied, LoadBase(args, env).value, k, t);
    assert Marked(a, t);
    ParseUnknownAt(args, env, k, a, c);
    ParseClashAt(args, env, k, a, c);
  }

  // --------------------------------------------------------------- pass 1

  /** `--no-config` together with a config file is rejected, whatever the
      order, when the config files named before the first `--no-config`
      load: the files named after it are never read. */
  lemma MixedConfigRejected(args: seq<string>, env: Env)
    requires MixesConfig(args)
    requires LoadsUntilNoConfig(args, env, 0)
    ensures Parse(args, env) == Err(MixedConfig)
    ensures Parse(args, env).error.Message() == "can't mix --config and --no-config"
  {
    ScanMixes(args, env, 0, ConfigScan(false, false, env.defaultConfig));
  }

  /** In particular, when every config file loads. */
  lemma MixedConfigRejectedWhenLoadsSucceed(args: seq<string>, env: Env)
    requires MixesConfig(args)
    requires forall f :: env.loadFile(f).Ok?
    ensures Parse(args, env) == Err(MixedConfig)
  {
    AllLoadsReachNoConfig(args, env, 0);
    MixedConfigRejected(args, env);
  }

  /** A config token at any position pass 1 reaches, after config tokens
      that all loaded and no `--no-config`, ends the parse with its own
      error: "need a config file" when it names none, else the loader's
      message for the file it names. */
  lemma ParseConfigFailsAt(args: seq<string>, env: Env, k: nat)
    requires Visits(args, ConfigPass, 0, k)
    requires Classify(args[k]) == Known(ConfigFlag) || Classify(args[k]) == ConfigAssign
    requires NamedFile(args, k).Some? ==> env.loadFile(NamedFile(args, k).value).Err?
    requires forall j: nat :: Visits(args, ConfigPass, 0, j) && j < k ==> LoadsAt(args, env, j)
    ensures NamedFile(args, k).None? ==> Parse(args, env) == Err(NeedConfigFile)
    ensures NamedFile(args, k).None? ==> Parse(args, env).error.Message() == "need a config file"
    ensures NamedFile(args, k).Some? ==>
              var e := env.loadFile(NamedFile(args, k).value).error;
              Parse(args, env) == Err(LoadingConfig(e)) && Parse(args, env).error.Message() == "error loading config: " + e
  {
    ScanFailsAt(args, env, 0, ConfigScan(false, false, env.defaultConfig), k);
  }

  /** A trailing `-c` that pass 1 reaches, with no other config token, is
      rejected as naming no file. */
  lemma DanglingConfigRejected(args: seq<string>, env: Env)
    requires |args| > 0 && Visits(args, ConfigPass, 0, |args| - 1)
    requires Classify(args[|args| - 1]) == Known(ConfigFlag)
    requires Occurrences(args, ConfigPass, 0, Known(NoConfigFlag)) == 0
    requires Occurrences(args, ConfigPass, 0, Known(ConfigFlag)) == 1
    requires Occurrences(args, ConfigPass, 0, ConfigAssign) == 0
    ensures Parse(args, env) == Err(NeedConfigFile)
    ensures Parse(args, env).error.Message() == "need a config file"
  {
    ScanDanglingConfig(args, env, 0, ConfigScan(false, false, env.defaultConfig));
  }

  /** A config file named by `-c FILE` that fails to load ends the parse
      with the loader's message behind a fixed prefix. */
  lemma ConfigLoadFailureReported(args: seq<string>, env: Env, e: string)
    requires |args| >= 2 && Classify(args[0]) == Known(ConfigFlag)
    requires env.loadFile(args[1]) == Err(e)
    ensures Parse(args, env) == Err(LoadingConfig(e))
    ensures Parse(args, env).error.Message() == "error loading config: " + e
  {
  }

  /** The same for `--config=FILE` and `-config=FILE`. */
  lemma ConfigAssignLoadFailureReported(args: seq<string>, env: Env, prefix: string, file: string, e: string)
    requires prefix == "--config=" || prefix == "-config="
    requires |args| >= 1 && args[0] == prefix + file
    requires env.loadFile(file) == Err(e)
    ensures Parse(args, env) == Err(LoadingConfig(e))
    ensures Parse(args, env).error.Message() == "error loading config: " + e
  {
    ConfigAssignClassified(prefix, file);
    ConfigAssignFile(prefix, file);
  }

  /** `-C` alone parses to the built-in defaults: no config file is read. */
  lemma NoConfigGivesDefaults(a: string, env: Env)
    requires Classify(a) == Known(NoConfigFlag)
    requires env.testBuild || env.stdoutIsTty
    requires !(env.defaultConfig.tls && env.defaultConfig.tor)
    ensures Parse([a], env) == Ok(env.defaultConfig)
  {
    var d := env.defaultConfig;
    assert ScanConfig([a], env, 0, ConfigScan(false, false, d)) == Ok(ConfigScan(true, false, d));
    assert LoadBase([a], env) == Ok(d);
    assert ApplyFlags([a], env, 0, NothingApplied, d) == Ok(Finished(d, NothingApplied));
  }

  /** The flag pass and the config pass read the list differently: the
      token after `-m` is the media program to pass 2, but pass 1 still
      reads it as a flag, so `-m -c` is rejected for lack of a config file. */
  lemma MediaValueSeenByConfigPass(m: string, c: string, env: Env)
    requires Classify(m) == Known(MediaFlag) && Classify(c) == Known(ConfigFlag)
    ensures Parse([m, c], env) == Err(NeedConfigFile)
  {
    var s := ConfigScan(false, false, env.defaultConfig);
    assert ScanConfig([m, c], env, 1, s) == Err(NeedConfigFile);
    assert ScanConfig([m, c], env, 0, s) == ScanConfig([m, c], env, 1, s);
  }

  /** `-c` takes the next token as its file even when that token is
      `--no-config`: `-c -C` loads a file named `-C`, and no mix is seen. */
  lemma ConfigTakesNoConfigAsFile(c: string, n: string, env: Env, x: Config)
    requires Classify(c) == Known(ConfigFlag) && Classify(n) == Known(NoConfigFlag)
    requires env.loadFile(n) == Ok(x)
    requires !(x.tls && x.tor) && (env.testBuild || env.stdoutIsTty)
    ensures Parse([c, n], env) == Ok(x)
  {
    assert ScanConfig([c, n], env, 0, ConfigScan(false, false, env.defaultConfig)) == Ok(ConfigScan(false, true, x));
    assert LoadBase([c, n], env) == Ok(x);
    assert ApplyFlags([c, n], env, 0, NothingApplied, x) == Ok(Finished(x, Mark(NothingApplied, Known(ConfigFlag))));
  }
}
