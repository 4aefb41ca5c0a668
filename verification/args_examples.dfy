/** The unit tests of the argument parser and a few further examples,
    stated as lemmas about `Parse` in a test build: `cfg!(test)` holds, so no
    default config file is read and the terminal probe is skipped; the build
    supports TLS and Tor; and, unless an example says otherwise, no config
    file exists, so every load fails with the operating system's "not found"
    message. */
module ArgsExamples {
  import opened Results
  import opened Strings
  import opened Flags
  import opened Args
  import opened ArgsProperties
  import opened ParseProperties
  import ParseCases
  import FlagPassCases

  /** The message a failed load of a missing file carries. */
  const NoSuchFile: string := "No such file or directory (os error 2)"

  /** Built-in defaults for the examples. The parser passes these through,
      so only the fields the tests look at matter. */
  const Defaults: Config := Config(Default, "", false, false, 80, None, false, Encoding("UTF-8"), false)

  /** The test build's surroundings. */
  const TestEnv: Env :=
    Env(Defaults, false, Err(NoSuchFile), (f: string) => Err(NoSuchFile),
        (s: string) => Ok(Encoding(s)), (s: string) => None, true, true, true, false)

  /** A spelling of `f` is read as `f`. */
  lemma Reads(a: string, f: Flag)
    requires Spells(a, f)
    ensures Classify(a) == Known(f) && PassOneIgnores(a) == (f != NoConfigFlag && f != ConfigFlag)
  {
    ClassifySpells(a);
  }

  /** A word without a leading `-` is read as the target. */
  lemma ReadsBare(a: string)
    requires |a| > 0 && a[0] != '-'
    ensures Classify(a) == Bare && PassOneIgnores(a)
  {
    ClassifySpells(a);
  }

  /** The test build reads no default file and skips the terminal probe. */
  lemma DefaultsAreTheBase()
    ensures DefaultBase(TestEnv) == Ok(Defaults) && ParseCases.SaneBase(TestEnv)
    ensures TestEnv.testBuild
  {
  }

  // ------------------------------------------------------------ test_simple

  lemma LocalFlagExample()
    ensures Parse(["-l"], TestEnv) == Ok(Defaults.(start := LocalStart))
    ensures !Parse(["-l"], TestEnv).value.wide
  {
    Reads("-l", LocalFlag);
    DefaultsAreTheBase();
    ParseCases.LocalSetsStart("-l", TestEnv);
  }

  // ----------------------------------------- test_ignore_trailing_whitespace

  /** The three trailing spaces of the test's URL are trimmed away. */
  lemma TrailingSpacesTrimmed()
    ensures Trim("some-url.io   ") == "some-url.io"
  {
    assert "some-url.io   " == "some-url.io" + "   ";
    assert All("   ", IsWhitespace);
    TrimDropsTrailing("some-url.io", "   ");
  }

  lemma TrailingWhitespaceExample()
    ensures Parse(["some-url.io   "], TestEnv) == Ok(Defaults.(start := "some-url.io"))
  {
    ReadsBare("some-url.io   ");
    DefaultsAreTheBase();
    ParseCases.TargetIsTrimmed("some-url.io   ", TestEnv);
    TrailingSpacesTrimmed();
  }

  // ----------------------------------------------------------- test_unknown

  lemma UnknownFlagExample()
    ensures Parse(["-z"], TestEnv) == Err(UnknownFlag("-z"))
  {
    assert Classify("-z") == Unknown;
    DefaultsAreTheBase();
    LoadBaseIgnoresFlags(["-z"], TestEnv);
    ParseCases.UnknownFlagRejected(["-z"], TestEnv);
  }

  lemma UnknownFlagAfterLocalExample()
    ensures Parse(["-l", "-x"], TestEnv) == Err(UnknownFlag("-x"))
  {
    Reads("-l", LocalFlag);
    assert Classify("-x") == Unknown;
    DefaultsAreTheBase();
    ParseCases.LocalThenUnknown("-l", "-x", TestEnv);
  }

  lemma SecondUrlExample()
    ensures Parse(["sdf.org", "sdf2.org"], TestEnv) == Err(UnknownArgument("sdf2.org"))
  {
    ReadsBare("sdf.org");
    ReadsBare("sdf2.org");
    DefaultsAreTheBase();
    ParseCases.SecondTargetRejected("sdf.org", "sdf2.org", TestEnv);
  }

  // ------------------------------------------------------------- test_local

  lemma LongLocalExample()
    ensures Parse(["--local"], TestEnv) == Ok(Defaults.(start := LocalStart))
  {
    Reads("--local", LocalFlag);
    DefaultsAreTheBase();
    ParseCases.LocalSetsStart("--local", TestEnv);
  }

  lemma TlsThenLocalExample()
    ensures Parse(["-s", "-l"], TestEnv) == Ok(Defaults.(tls := true, start := LocalStart))
  {
    Reads("-s", TlsFlag);
    Reads("-l", LocalFlag);
    DefaultsAreTheBase();
    ParseCases.TlsThenLocal("-s", "-l", TestEnv);
  }

  // --------------------------------------------------------------- test_raw

  /** The test's URL is read as the target and needs no trimming. */
  lemma SdfIsATarget()
    ensures Classify("sdf.org") == Bare && Trim("sdf.org") == "sdf.org"
  {
    ReadsBare("sdf.org");
    TrimmedIsFixed("sdf.org");
  }

  lemma RawWithUrlExample()
    ensures Parse(["--raw", "sdf.org"], TestEnv) == Ok(Defaults.(mode := Raw, start := "sdf.org"))
  {
    Reads("--raw", RawFlag);
    SdfIsATarget();
    DefaultsAreTheBase();
    ParseCases.RawWithTarget("--raw", "sdf.org", TestEnv);
  }

  lemma RawAloneExample()
    ensures Parse(["--raw"], TestEnv) == Err(RawNeedsUrl)
  {
    Reads("--raw", RawFlag);
    DefaultsAreTheBase();
    ParseCases.RawAloneRejected("--raw", TestEnv);
  }

  // ------------------------------------------------------------- test_print

  lemma PrintWithUrlExample()
    ensures Parse(["--print", "sdf.org"], TestEnv) == Ok(Defaults.(mode := Print, start := "sdf.org"))
  {
    Reads("--print", PrintFlag);
    SdfIsATarget();
    DefaultsAreTheBase();
    ParseCases.PrintWithTarget("--print", "sdf.org", TestEnv);
  }

  lemma PrintAloneExample()
    ensures Parse(["--print"], TestEnv) == Ok(Defaults.(mode := Print))
  {
    var args := ["--print"];
    Reads("--print", PrintFlag);
    DefaultsAreTheBase();
    ParseCases.ParseNoConfig(args, TestEnv);
    FlagPassCases.PrintStep(args, TestEnv, 0, NothingApplied, Defaults);
    FlagPassCases.Done(args, TestEnv, Mark(NothingApplied, Known(PrintFlag)), Defaults.(mode := Print));
  }

  // ------------------------------------------------- test_help, test_version

  lemma HelpExample()
    ensures Parse(["--help"], TestEnv) == Ok(Defaults.(mode := Help))
  {
    Reads("--help", HelpFlag);
    DefaultsAreTheBase();
    LoadBaseIgnoresFlags(["--help"], TestEnv);
    HelpOrVersionFirst(["--help"], TestEnv);
  }

  lemma VersionExample()
    ensures Parse(["--version"], TestEnv) == Ok(Defaults.(mode := Version))
  {
    Reads("--version", VersionFlag);
    DefaultsAreTheBase();
    LoadBaseIgnoresFlags(["--version"], TestEnv);
    HelpOrVersionFirst(["--version"], TestEnv);
  }

  /** Help and version win over anything after them, even an unknown flag. */
  lemma VersionBeforeUnknownExample()
    ensures Parse(["--version", "-z"], TestEnv) == Ok(Defaults.(mode := Version))
  {
    Reads("--version", VersionFlag);
    assert Classify("-z") == Unknown;
    DefaultsAreTheBase();
    LoadBaseIgnoresFlags(["--version", "-z"], TestEnv);
    HelpOrVersionFirst(["--version", "-z"], TestEnv);
  }

  /** A later `--help` keeps what the flags before it set. */
  lemma TlsThenHelpExample()
    ensures Parse(["--tls", "--help"], TestEnv) == Ok(Defaults.(tls := true, mode := Help))
  {
    Reads("--tls", TlsFlag);
    Reads("--help", HelpFlag);
    DefaultsAreTheBase();
    TlsThenHelp("--tls", "--help", TestEnv);
  }

  /** `TlsThenHelpExample` over any spellings of the two flags. */
  lemma TlsThenHelp(t: string, h: string, env: Env)
    requires Classify(t) == Known(TlsFlag) && Classify(h) == Known(HelpFlag)
    requires env.tlsFeature && DefaultBase(env).Ok?
    ensures Parse([t, h], env) == Ok(DefaultBase(env).value.(tls := true, mode := Help))
  {
    var args, base := [t, h], DefaultBase(env).value;
    LoadBaseIgnoresFlags(args, env);
    assert Visits(args, FlagPass, 0, 1);
    var a1 := Mark(NothingApplied, Known(TlsFlag));
    assert StepAt(args, env, 0, NothingApplied, base) == Continue(a1, base.(tls := true));
    assert RunUntil(args, env, 0, NothingApplied, base, 1) == Continue(a1, base.(tls := true));
    ParseStopsAtHelpOrVersion(args, env, 1);
  }

  // ----------------------------------------------------------- test_tls_tor

  lemma TlsAndTorExample()
    ensures Parse(["--tls", "--tor"], TestEnv) == Err(TorAndTls)
  {
    Reads("--tls", TlsFlag);
    Reads("--tor", TorFlag);
    DefaultsAreTheBase();
    ParseCases.TlsAndTorRejected("--tls", "--tor", TestEnv);
  }

  lemma TlsAndNoTlsExample()
    ensures Parse(["--tls", "--no-tls"], TestEnv) == Err(BothTls)
  {
    Reads("--tls", TlsFlag);
    Reads("--no-tls", NoTlsFlag);
    DefaultsAreTheBase();
    ParseCases.TlsThenNoTls("--tls", "--no-tls", TestEnv);
  }

  lemma ShortTlsAndNoTlsExample()
    ensures Parse(["-s", "-S"], TestEnv) == Err(BothTls)
  {
    Reads("-s", TlsFlag);
    Reads("-S", NoTlsFlag);
    DefaultsAreTheBase();
    ParseCases.TlsThenNoTls("-s", "-S", TestEnv);
  }

  lemma TorWithoutTlsExample()
    ensures Parse(["--tor", "--no-tls"], TestEnv) == Ok(Defaults.(tor := true, tls := false))
  {
    Reads("--tor", TorFlag);
    Reads("--no-tls", NoTlsFlag);
    DefaultsAreTheBase();
    ParseCases.TorThenNoTls("--tor", "--no-tls", TestEnv);
  }

  // ------------------------------------------------------ test_mix_and_match

  lemma MixAndMatchExample()
    ensures Parse(["-r", "-s", "-C"], TestEnv) == Ok(Defaults.(mode := Raw, tls := true))
  {
    Reads("-r", RawFlag);
    Reads("-s", TlsFlag);
    Reads("-C", NoConfigFlag);
    ParseCases.RawTlsNoConfig("-r", "-s", "-C", TestEnv);
  }

  // ------------------------------------------------------------ test_config

  lemma ConfigWithoutFileExample()
    ensures Parse(["-c"], TestEnv) == Err(NeedConfigFile)
  {
    Reads("-c", ConfigFlag);
  }

  /** The mix is rejected although `file.conf` does not load: it is never read. */
  lemma NoConfigThenConfigExample()
    ensures Parse(["-C", "-c", "file.conf"], TestEnv) == Err(MixedConfig)
  {
    var args := ["-C", "-c", "file.conf"];
    Reads("-C", NoConfigFlag);
    Reads("-c", ConfigFlag);
    assert Occurrences(args, ConfigPass, 1, Known(ConfigFlag)) > 0;
    MixedConfigRejected(args, TestEnv);
  }

  /** The other order: the file loads, then `--no-config` is rejected. */
  lemma ConfigThenNoConfigExample()
    ensures Parse(["-c", "a.conf", "-C"], TestEnv.(loadFile := (f: string) => Ok(Defaults))) == Err(MixedConfig)
  {
    var args := ["-c", "a.conf", "-C"];
    var env := TestEnv.(loadFile := (f: string) => Ok(Defaults));
    Reads("-C", NoConfigFlag);
    Reads("-c", ConfigFlag);
    assert Occurrences(args, ConfigPass, 2, Known(NoConfigFlag)) > 0;
    assert LoadsUntilNoConfig(args, env, 2);
    MixedConfigRejected(args, env);
  }

  lemma ConfigFileMissingExample()
    ensures Parse(["-c", "file.conf"], TestEnv) == Err(LoadingConfig(NoSuchFile))
  {
    Reads("-c", ConfigFlag);
    ConfigLoadFailureReported(["-c", "file.conf"], TestEnv, NoSuchFile);
  }

  lemma LongConfigFileMissingExample()
    ensures Parse(["--config", "file.conf"], TestEnv) == Err(LoadingConfig(NoSuchFile))
  {
    Reads("--config", ConfigFlag);
    ConfigLoadFailureReported(["--config", "file.conf"], TestEnv, NoSuchFile);
  }

  lemma ConfigAssignFileMissingExample()
    ensures Parse(["--config=file.conf"], TestEnv) == Err(LoadingConfig(NoSuchFile))
  {
    assert "--config=file.conf" == "--config=" + "file.conf";
    ConfigAssignLoadFailureReported(["--config=file.conf"], TestEnv, "--config=", "file.conf", NoSuchFile);
  }

  lemma NoConfigExample()
    ensures Parse(["-C"], TestEnv) == Ok(Defaults)
    ensures !Parse(["-C"], TestEnv).value.tls
  {
    Reads("-C", NoConfigFlag);
    NoConfigGivesDefaults("-C", TestEnv);
  }

  /** A config file that fails to load is reported wherever it appears. */
  lemma LocalThenMissingConfigExample()
    ensures Parse(["-l", "-c", "file.conf"], TestEnv) == Err(LoadingConfig(NoSuchFile))
  {
    var args := ["-l", "-c", "file.conf"];
    Reads("-l", LocalFlag);
    Reads("-c", ConfigFlag);
    assert Visits(args, ConfigPass, 0, 1);
    ParseConfigFailsAt(args, TestEnv, 1);
  }

  /** A second `-c` at the end names no file, even after one that loaded. */
  lemma LateDanglingConfigExample()
    ensures Parse(["-c", "a.conf", "-c"], TestEnv.(loadFile := (f: string) => Ok(Defaults))) == Err(NeedConfigFile)
  {
    var args := ["-c", "a.conf", "-c"];
    var env := TestEnv.(loadFile := (f: string) => Ok(Defaults));
    Reads("-c", ConfigFlag);
    assert Visits(args, ConfigPass, 0, 2);
    forall j: nat | Visits(args, ConfigPass, 0, j) && j < 2 ensures LoadsAt(args, env, j) {
      assert j == 0;
    }
    ParseConfigFailsAt(args, env, 2);
  }

  // -------------------------------------------- errors after other tokens

  /** `--no-tls` two tokens after `--tls` still clashes with it. */
  lemma LateNoTlsExample()
    ensures Parse(["--tls", "sdf.org", "--no-tls"], TestEnv) == Err(BothTls)
  {
    Reads("--tls", TlsFlag);
    Reads("--no-tls", NoTlsFlag);
    SdfIsATarget();
    DefaultsAreTheBase();
    LateNoTls("--tls", "sdf.org", "--no-tls", TestEnv);
  }

  /** `LateNoTlsExample` over any spellings and any URL. */
  lemma LateNoTls(t: string, w: string, n: string, env: Env)
    requires Classify(t) == Known(TlsFlag) && Classify(w) == Bare && Classify(n) == Known(NoTlsFlag)
    requires env.tlsFeature && DefaultBase(env).Ok?
    ensures Parse([t, w, n], env) == Err(BothTls)
  {
    var args, base := [t, w, n], DefaultBase(env).value;
    LoadBaseIgnoresFlags(args, env);
    var a1 := Mark(NothingApplied, Known(TlsFlag));
    var a2 := Mark(a1, Bare);
    var c := base.(tls := true, start := Trim(w));
    assert Next(args, FlagPass, 0) == 1 && Next(args, FlagPass, 1) == 2;
    assert Visits(args, FlagPass, 0, 2);
    assert StepAt(args, env, 0, NothingApplied, base) == Continue(a1, base.(tls := true));
    assert StepAt(args, env, 1, a1, base.(tls := true)) == Continue(a2, c);
    assert RunUntil(args, env, 1, a1, base.(tls := true), 2) == Continue(a2, c);
    assert RunUntil(args, env, 0, NothingApplied, base, 2) == Continue(a2, c);
    ParseRejectsAfter(args, env, 0, 2, a2, c);
  }

  /** An unknown flag after a URL and another flag is rejected by name. */
  lemma LateUnknownFlagExample()
    ensures Parse(["sdf.org", "-l", "-z"], TestEnv) == Err(UnknownFlag("-z"))
  {
    Reads("-l", LocalFlag);
    assert Classify("-z") == Unknown;
    SdfIsATarget();
    DefaultsAreTheBase();
    LateUnknownFlag("sdf.org", "-l", "-z", TestEnv);
  }

  /** `LateUnknownFlagExample` over any URL, spelling and unknown flag. */
  lemma LateUnknownFlag(w: string, l: string, z: string, env: Env)
    requires Classify(w) == Bare && Classify(l) == Known(LocalFlag) && Classify(z) == Unknown
    requires DefaultBase(env).Ok?
    ensures Parse([w, l, z], env) == Err(UnknownFlag(z))
  {
    var args, base := [w, l, z], DefaultBase(env).value;
    LoadBaseIgnoresFlags(args, env);
    var a1 := Mark(NothingApplied, Bare);
    var a2 := Mark(a1, Known(LocalFlag));
    var c := base.(start := LocalStart);
    assert Next(args, FlagPass, 0) == 1 && Next(args, FlagPass, 1) == 2;
    assert Visits(args, FlagPass, 0, 2);
    assert StepAt(args, env, 0, NothingApplied, base) == Continue(a1, base.(start := Trim(w)));
    assert StepAt(args, env, 1, a1, base.(start := Trim(w))) == Continue(a2, c);
    assert RunUntil(args, env, 1, a1, base.(start := Trim(w)), 2) == Continue(a2, c);
    assert RunUntil(args, env, 0, NothingApplied, base, 2) == Continue(a2, c);
    ParseUnknownAt(args, env, 2, a2, c);
  }
}
