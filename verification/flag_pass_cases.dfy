/** Pass 2 on short argument lists, one rule at a time, for any base
    configuration `b`: the conflicting pairs in both orders, missing
    values, the single URL, and the flags that set the start URL and the
    mode. Tokens are described by how they are read (`Classify`), so each
    lemma covers every spelling of its flags. */
module FlagPassCases {
  import opened Results
  import opened Strings
  import opened Flags
  import opened Args

  /** Pass 2 moves on from a position where the iteration goes on. */
  lemma Proceed(args: seq<string>, env: Env, i: nat, a: Applied, cfg: Config)
    requires i < |args| && StepAt(args, env, i, a, cfg).Continue?
    ensures ApplyFlags(args, env, i, a, cfg)
         == ApplyFlags(args, env, Next(args, FlagPass, i), StepAt(args, env, i, a, cfg).applied, StepAt(args, env, i, a, cfg).cfg)
  {
  }

  /** Pass 2 ends with the error of a failing iteration. */
  lemma Stop(args: seq<string>, env: Env, i: nat, a: Applied, cfg: Config)
    requires i < |args| && StepAt(args, env, i, a, cfg).Fail?
    ensures ApplyFlags(args, env, i, a, cfg) == Err(StepAt(args, env, i, a, cfg).error)
  {
  }

  /** Pass 2 finishes after the last token. */
  lemma Done(args: seq<string>, env: Env, a: Applied, cfg: Config)
    ensures ApplyFlags(args, env, |args|, a, cfg) == Ok(Finished(cfg, a))
  {
  }

  // ------------------------------------------- single media/autoplay steps

  /** A `--media PROGRAM` with no earlier `--no-media` sets the program and
      skips it. */
  lemma MediaStep(args: seq<string>, env: Env, i: nat, a: Applied, cfg: Config)
    requires i + 1 < |args| && Classify(args[i]) == Known(MediaFlag) && !a.noMedia
    ensures ApplyFlags(args, env, i, a, cfg)
         == ApplyFlags(args, env, i + 2, Mark(a, Known(MediaFlag)), cfg.(media := Some(args[i + 1])))
  {
  }

  /** A `--no-media` with no earlier `--media` clears the program. */
  lemma NoMediaStep(args: seq<string>, env: Env, i: nat, a: Applied, cfg: Config)
    requires i < |args| && Classify(args[i]) == Known(NoMediaFlag) && !a.media
    ensures ApplyFlags(args, env, i, a, cfg)
         == ApplyFlags(args, env, i + 1, Mark(a, Known(NoMediaFlag)), cfg.(media := None))
  {
  }

  /** An `--autoplay` with no earlier `--no-media` or `--no-autoplay` turns
      autoplay on. */
  lemma AutoplayStep(args: seq<string>, env: Env, i: nat, a: Applied, cfg: Config)
    requires i < |args| && Classify(args[i]) == Known(AutoplayFlag) && !a.noMedia && !a.noAutoplay
    ensures ApplyFlags(args, env, i, a, cfg)
         == ApplyFlags(args, env, i + 1, Mark(a, Known(AutoplayFlag)), cfg.(autoplay := true))
  {
  }

  /** A `--no-autoplay` with no earlier `--autoplay` turns autoplay off. */
  lemma NoAutoplayStep(args: seq<string>, env: Env, i: nat, a: Applied, cfg: Config)
    requires i < |args| && Classify(args[i]) == Known(NoAutoplayFlag) && !a.autoplay
    ensures ApplyFlags(args, env, i, a, cfg)
         == ApplyFlags(args, env, i + 1, Mark(a, Known(NoAutoplayFlag)), cfg.(autoplay := false))
  {
  }

  /** Pass 2 fails at `--media` after a `--no-media`. */
  lemma MediaClash(args: seq<string>, env: Env, i: nat, a: Applied, cfg: Config)
    requires i < |args| && Classify(args[i]) == Known(MediaFlag) && a.noMedia
    ensures ApplyFlags(args, env, i, a, cfg) == Err(BothMedia)
  {
  }

  /** Pass 2 fails at `--no-media` after a `--media`. */
  lemma NoMediaClash(args: seq<string>, env: Env, i: nat, a: Applied, cfg: Config)
    requires i < |args| && Classify(args[i]) == Known(NoMediaFlag) && a.media
    ensures ApplyFlags(args, env, i, a, cfg) == Err(BothMedia)
  {
  }

  /** Pass 2 fails at `--autoplay` after a `--no-media`, whatever else was
      given. */
  lemma AutoplayNoMediaClash(args: seq<string>, env: Env, i: nat, a: Applied, cfg: Config)
    requires i < |args| && Classify(args[i]) == Known(AutoplayFlag) && a.noMedia
    ensures ApplyFlags(args, env, i, a, cfg) == Err(NoMediaAndAutoplay)
  {
  }

  /** Pass 2 fails at `--autoplay` after a `--no-autoplay` (and no `--no-media`). */
  lemma AutoplayClash(args: seq<string>, env: Env, i: nat, a: Applied, cfg: Config)
    requires i < |args| && Classify(args[i]) == Known(AutoplayFlag) && !a.noMedia && a.noAutoplay
    ensures ApplyFlags(args, env, i, a, cfg) == Err(BothAutoplay)
  {
  }

  /** Pass 2 fails at `--no-autoplay` after an `--autoplay`. */
  lemma NoAutoplayClash(args: seq<string>, env: Env, i: nat, a: Applied, cfg: Config)
    requires i < |args| && Classify(args[i]) == Known(NoAutoplayFlag) && a.autoplay
    ensures ApplyFlags(args, env, i, a, cfg) == Err(BothAutoplay)
  {
  }

  /** A `--tor` with no earlier `--no-tor`, in a build with Tor support,
      turns Tor on. */
  lemma TorStep(args: seq<string>, env: Env, i: nat, a: Applied, cfg: Config)
    requires i < |args| && Classify(args[i]) == Known(TorFlag) && !a.noTor && env.torFeature
    ensures ApplyFlags(args, env, i, a, cfg)
         == ApplyFlags(args, env, i + 1, Mark(a, Known(TorFlag)), cfg.(tor := true))
  {
  }

  /** Pass 2 fails at `--no-tor` after a `--tor`. */
  lemma NoTorClash(args: seq<string>, env: Env, i: nat, a: Applied, cfg: Config)
    requires i < |args| && Classify(args[i]) == Known(NoTorFlag) && a.tor
    ensures ApplyFlags(args, env, i, a, cfg) == Err(BothTor)
  {
  }

  /** A `--no-tor` with no earlier `--tor` turns Tor off. */
  lemma NoTorStep(args: seq<string>, env: Env, i: nat, a: Applied, cfg: Config)
    requires i < |args| && Classify(args[i]) == Known(NoTorFlag) && !a.tor
    ensures ApplyFlags(args, env, i, a, cfg)
         == ApplyFlags(args, env, i + 1, Mark(a, Known(NoTorFlag)), cfg.(tor := false))
  {
  }

  /** Pass 2 fails at `--tor` after a `--no-tor`. */
  lemma TorClash(args: seq<string>, env: Env, i: nat, a: Applied, cfg: Config)
    requires i < |args| && Classify(args[i]) == Known(TorFlag) && a.noTor
    ensures ApplyFlags(args, env, i, a, cfg) == Err(BothTor)
  {
  }

  /** `--raw` in a list of more than one token selects raw mode. */
  lemma RawStep(args: seq<string>, env: Env, i: nat, a: Applied, cfg: Config)
    requires i < |args| && Classify(args[i]) == Known(RawFlag) && |args| > 1
    ensures ApplyFlags(args, env, i, a, cfg)
         == ApplyFlags(args, env, i + 1, Mark(a, Known(RawFlag)), cfg.(mode := Raw))
  {
  }

  /** `--print` selects print mode. */
  lemma PrintStep(args: seq<string>, env: Env, i: nat, a: Applied, cfg: Config)
    requires i < |args| && Classify(args[i]) == Known(PrintFlag)
    ensures ApplyFlags(args, env, i, a, cfg)
         == ApplyFlags(args, env, i + 1, Mark(a, Known(PrintFlag)), cfg.(mode := Print))
  {
  }

  /** A `--tls` with no earlier `--no-tls`, in a build with TLS support,
      turns TLS on. */
  lemma TlsStep(args: seq<string>, env: Env, i: nat, a: Applied, cfg: Config)
    requires i < |args| && Classify(args[i]) == Known(TlsFlag) && !a.noTls && env.tlsFeature
    ensures ApplyFlags(args, env, i, a, cfg)
         == ApplyFlags(args, env, i + 1, Mark(a, Known(TlsFlag)), cfg.(tls := true))
  {
  }

  /** A `--no-tls` with no earlier `--tls` turns TLS off. */
  lemma NoTlsStep(args: seq<string>, env: Env, i: nat, a: Applied, cfg: Config)
    requires i < |args| && Classify(args[i]) == Known(NoTlsFlag) && !a.tls
    ensures ApplyFlags(args, env, i, a, cfg)
         == ApplyFlags(args, env, i + 1, Mark(a, Known(NoTlsFlag)), cfg.(tls := false))
  {
  }

  /** `--local` sets the start URL to the local server. */
  lemma LocalStep(args: seq<string>, env: Env, i: nat, a: Applied, cfg: Config)
    requires i < |args| && Classify(args[i]) == Known(LocalFlag)
    ensures ApplyFlags(args, env, i, a, cfg)
         == ApplyFlags(args, env, i + 1, Mark(a, Known(LocalFlag)), cfg.(start := LocalStart))
  {
  }

  /** `--no-config` changes nothing in pass 2. */
  lemma NoConfigStep(args: seq<string>, env: Env, i: nat, a: Applied, cfg: Config)
    requires i < |args| && Classify(args[i]) == Known(NoConfigFlag)
    ensures ApplyFlags(args, env, i, a, cfg) == ApplyFlags(args, env, i + 1, a, cfg)
  {
  }

  /** A final `--no-config` ends pass 2. */
  lemma NoConfigEnds(args: seq<string>, env: Env, i: nat, a: Applied, cfg: Config)
    requires i + 1 == |args| && Classify(args[i]) == Known(NoConfigFlag)
    ensures ApplyFlags(args, env, i, a, cfg) == Ok(Finished(cfg, a))
  {
  }

  /** The first bare word becomes the start URL, trimmed. */
  lemma BareStep(args: seq<string>, env: Env, i: nat, a: Applied, cfg: Config)
    requires i < |args| && Classify(args[i]) == Bare && !a.url
    ensures ApplyFlags(args, env, i, a, cfg)
         == ApplyFlags(args, env, i + 1, Mark(a, Bare), cfg.(start := Trim(args[i])))
  {
  }

  /** Pass 2 fails at an unknown flag and names it. */
  lemma UnknownAt(args: seq<string>, env: Env, i: nat, a: Applied, cfg: Config)
    requires i < |args| && Classify(args[i]) == Unknown
    ensures ApplyFlags(args, env, i, a, cfg) == Err(UnknownFlag(args[i]))
  {
  }

  /** The outcome of a pass 2 that ends normally with configuration `c`. */
  predicate FinishesWith(r: Result<Outcome, ArgError>, c: Config) {
    r.Ok? && r.value.Finished? && r.value.cfg == c
  }

  // ------------------------------------------------------ conflicting pairs

  /** `--no-tls` then `--tls` clash. */
  lemma NoTlsThenTls(x: string, y: string, env: Env, b: Config)
    requires Classify(x) == Known(TlsFlag) && Classify(y) == Known(NoTlsFlag)
    ensures ApplyFlags([y, x], env, 0, NothingApplied, b) == Err(BothTls)
  {
    var args := [y, x];
    var s0 := StepAt(args, env, 0, NothingApplied, b);
    assert s0.Continue? && s0.applied.noTls;
    Proceed(args, env, 0, NothingApplied, b);
    assert Next(args, FlagPass, 0) == 1;
    assert StepAt(args, env, 1, s0.applied, s0.cfg) == Fail(BothTls);
    Stop(args, env, 1, s0.applied, s0.cfg);
  }

  /** `--tls` then `--no-tls` clash in a build that supports TLS. */
  lemma TlsThenNoTls(x: string, y: string, env: Env, b: Config)
    requires Classify(x) == Known(TlsFlag) && Classify(y) == Known(NoTlsFlag)
    requires env.tlsFeature
    ensures ApplyFlags([x, y], env, 0, NothingApplied, b) == Err(BothTls)
  {
    var args := [x, y];
    var s0 := StepAt(args, env, 0, NothingApplied, b);
    assert s0.Continue? && s0.applied.tls;
    Proceed(args, env, 0, NothingApplied, b);
    assert Next(args, FlagPass, 0) == 1;
    assert StepAt(args, env, 1, s0.applied, s0.cfg) == Fail(BothTls);
    Stop(args, env, 1, s0.applied, s0.cfg);
  }

  /** In a build without TLS support, `--tls` is rejected as soon as pass 2
      reaches it, before any clash with a later `--no-tls` is seen. */
  lemma TlsUnsupported(x: string, rest: seq<string>, env: Env, b: Config)
    requires Classify(x) == Known(TlsFlag) && !env.tlsFeature
    ensures ApplyFlags([x] + rest, env, 0, NothingApplied, b) == Err(NoTlsSupport)
  {
    Stop([x] + rest, env, 0, NothingApplied, b);
  }

  /** `--no-tor` then `--tor` clash. */
  lemma NoTorThenTor(x: string, y: string, env: Env, b: Config)
    requires Classify(x) == Known(TorFlag) && Classify(y) == Known(NoTorFlag)
    ensures ApplyFlags([y, x], env, 0, NothingApplied, b) == Err(BothTor)
  {
    NoTorStep([y, x], env, 0, NothingApplied, b);
    TorClash([y, x], env, 1, Mark(NothingApplied, Known(NoTorFlag)), b.(tor := false));
  }


  /** `--tor` then `--no-tor` clash in a build that supports Tor. */
  lemma TorThenNoTor(x: string, y: string, env: Env, b: Config)
    requires Classify(x) == Known(TorFlag) && Classify(y) == Known(NoTorFlag)
    requires env.torFeature
    ensures ApplyFlags([x, y], env, 0, NothingApplied, b) == Err(BothTor)
  {
    TorStep([x, y], env, 0, NothingApplied, b);
    NoTorClash([x, y], env, 1, Mark(NothingApplied, Known(TorFlag)), b.(tor := true));
  }

  /** In a build without Tor support, `--tor` is rejected as soon as pass 2
      reaches it. */
  lemma TorUnsupported(x: string, rest: seq<string>, env: Env, b: Config)
    requires Classify(x) == Known(TorFlag) && !env.torFeature
    ensures ApplyFlags([x] + rest, env, 0, NothingApplied, b) == Err(NoTorSupport)
  {
    Stop([x] + rest, env, 0, NothingApplied, b);
  }

  /** `--autoplay` then `--no-autoplay` clash. */
  lemma AutoplayThenNoAutoplay(x: string, y: string, env: Env, b: Config)
    requires Classify(x) == Known(AutoplayFlag) && Classify(y) == Known(NoAutoplayFlag)
    ensures ApplyFlags([x, y], env, 0, NothingApplied, b) == Err(BothAutoplay)
  {
    AutoplayStep([x, y], env, 0, NothingApplied, b);
    NoAutoplayClash([x, y], env, 1, Mark(NothingApplied, Known(AutoplayFlag)), b.(autoplay := true));
  }

  /** `--no-autoplay` then `--autoplay` clash. */
  lemma NoAutoplayThenAutoplay(x: string, y: string, env: Env, b: Config)
    requires Classify(x) == Known(AutoplayFlag) && Classify(y) == Known(NoAutoplayFlag)
    ensures ApplyFlags([y, x], env, 0, NothingApplied, b) == Err(BothAutoplay)
  {
    NoAutoplayStep([y, x], env, 0, NothingApplied, b);
    AutoplayClash([y, x], env, 1, Mark(NothingApplied, Known(NoAutoplayFlag)), b.(autoplay := false));
  }

  /** `--media PROGRAM` then `--no-media` clash. */
  lemma MediaThenNoMedia(m: string, program: string, n: string, env: Env, b: Config)
    requires Classify(m) == Known(MediaFlag) && Classify(n) == Known(NoMediaFlag)
    ensures ApplyFlags([m, program, n], env, 0, NothingApplied, b) == Err(BothMedia)
  {
    MediaStep([m, program, n], env, 0, NothingApplied, b);
    NoMediaClash([m, program, n], env, 2, Mark(NothingApplied, Known(MediaFlag)), b.(media := Some(program)));
  }

  /** `--no-media` then `--media PROGRAM` clash. */
  lemma NoMediaThenMedia(m: string, program: string, n: string, env: Env, b: Config)
    requires Classify(m) == Known(MediaFlag) && Classify(n) == Known(NoMediaFlag)
    ensures ApplyFlags([n, m, program], env, 0, NothingApplied, b) == Err(BothMedia)
  {
    NoMediaStep([n, m, program], env, 0, NothingApplied, b);
    MediaClash([n, m, program], env, 1, Mark(NothingApplied, Known(NoMediaFlag)), b.(media := None));
  }

  /** `--no-media` then `--autoplay` is rejected. */
  lemma NoMediaThenAutoplay(n: string, p: string, env: Env, b: Config)
    requires Classify(n) == Known(NoMediaFlag) && Classify(p) == Known(AutoplayFlag)
    ensures ApplyFlags([n, p], env, 0, NothingApplied, b) == Err(NoMediaAndAutoplay)
  {
    NoMediaStep([n, p], env, 0, NothingApplied, b);
    AutoplayNoMediaClash([n, p], env, 1, Mark(NothingApplied, Known(NoMediaFlag)), b.(media := None));
  }

  /** `--autoplay` then `--no-media` is accepted: only the other order is
      checked. Autoplay stays on with no media program. */
  lemma AutoplayThenNoMedia(n: string, p: string, env: Env, b: Config)
    requires Classify(n) == Known(NoMediaFlag) && Classify(p) == Known(AutoplayFlag)
    ensures FinishesWith(ApplyFlags([p, n], env, 0, NothingApplied, b), b.(autoplay := true, media := None))
  {
    var a1 := Mark(NothingApplied, Known(AutoplayFlag));
    AutoplayStep([p, n], env, 0, NothingApplied, b);
    NoMediaStep([p, n], env, 1, a1, b.(autoplay := true));
    Done([p, n], env, Mark(a1, Known(NoMediaFlag)), b.(autoplay := true, media := None));
  }

  /** `--tls` then `--tor` both apply; the clash is left to the final check. */
  lemma TlsThenTor(x: string, y: string, env: Env, b: Config)
    requires Classify(x) == Known(TlsFlag) && Classify(y) == Known(TorFlag)
    requires env.tlsFeature && env.torFeature
    ensures FinishesWith(ApplyFlags([x, y], env, 0, NothingApplied, b), b.(tls := true, tor := true))
  {
    var args, a1, c1 := [x, y], Mark(NothingApplied, Known(TlsFlag)), b.(tls := true);
    TlsStep(args, env, 0, NothingApplied, b);
    TorStep(args, env, 1, a1, c1);
    Done(args, env, Mark(a1, Known(TorFlag)), c1.(tor := true));
  }

  // ------------------------------------------------------- words and flags

  /** A bare word is the start URL with its white space trimmed. */
  lemma TargetIsTrimmed(u: string, env: Env, b: Config)
    requires Classify(u) == Bare
    ensures FinishesWith(ApplyFlags([u], env, 0, NothingApplied, b), b.(start := Trim(u)))
  {
    var args := [u];
    var s0 := StepAt(args, env, 0, NothingApplied, b);
    assert s0 == Continue(Mark(NothingApplied, Bare), b.(start := Trim(u)));
    Proceed(args, env, 0, NothingApplied, b);
    Done(args, env, s0.applied, s0.cfg);
  }

  /** A second bare word is rejected and named in the error. */
  lemma SecondTargetRejected(u: string, v: string, env: Env, b: Config)
    requires Classify(u) == Bare && Classify(v) == Bare
    ensures ApplyFlags([u, v], env, 0, NothingApplied, b) == Err(UnknownArgument(v))
  {
    var args := [u, v];
    var s0 := StepAt(args, env, 0, NothingApplied, b);
    assert s0.Continue? && s0.applied.url;
    Proceed(args, env, 0, NothingApplied, b);
    assert Next(args, FlagPass, 0) == 1;
    assert StepAt(args, env, 1, s0.applied, s0.cfg) == Fail(UnknownArgument(v));
    Stop(args, env, 1, s0.applied, s0.cfg);
  }

  /** `--local` sets the start URL to the local server. */
  lemma LocalSetsStart(l: string, env: Env, b: Config)
    requires Classify(l) == Known(LocalFlag)
    ensures FinishesWith(ApplyFlags([l], env, 0, NothingApplied, b), b.(start := LocalStart))
  {
    var args := [l];
    var s0 := StepAt(args, env, 0, NothingApplied, b);
    assert s0 == Continue(Mark(NothingApplied, Known(LocalFlag)), b.(start := LocalStart));
    Proceed(args, env, 0, NothingApplied, b);
    Done(args, env, s0.applied, s0.cfg);
  }

  // --------------------------------------------------------- missing values

  /** `--wrap` as the last token has no column. */
  lemma WrapLast(v: string, env: Env, b: Config)
    requires Classify(v) == Known(WrapFlag)
    ensures ApplyFlags([v], env, 0, NothingApplied, b) == Err(WrapNeedsColumn)
  {
    assert ValueAfter([v], 0) == None;
    assert StepAt([v], env, 0, NothingApplied, b) == Fail(WrapNeedsColumn);
  }

  /** `--media` as the last token has no program. */
  lemma MediaLast(v: string, env: Env, b: Config)
    requires Classify(v) == Known(MediaFlag)
    ensures ApplyFlags([v], env, 0, NothingApplied, b) == Err(MediaNeedsProgram)
  {
    assert ValueAfter([v], 0) == None;
    assert StepAt([v], env, 0, NothingApplied, b) == Fail(MediaNeedsProgram);
  }

  /** `--encoding` as the last token has no name. */
  lemma EncodingLast(v: string, env: Env, b: Config)
    requires Classify(v) == Known(EncodingFlag)
    ensures ApplyFlags([v], env, 0, NothingApplied, b) == Err(EncodingNeedsName)
  {
    assert ValueAfter([v], 0) == None;
    assert StepAt([v], env, 0, NothingApplied, b) == Fail(EncodingNeedsName);
  }

  /** A value-taking flag as the last token has no value. */
  lemma ValueFlagLast(v: string, env: Env, b: Config)
    requires Classify(v).Known? && TakesValue(Classify(v).flag) && Classify(v) != Known(ConfigFlag)
    ensures var f := Classify(v).flag;
            ApplyFlags([v], env, 0, NothingApplied, b) ==
              Err(if f == WrapFlag then WrapNeedsColumn else if f == MediaFlag then MediaNeedsProgram else EncodingNeedsName)
  {
    match Classify(v).flag
    case WrapFlag => WrapLast(v, env, b);
    case MediaFlag => MediaLast(v, env, b);
    case EncodingFlag => EncodingLast(v, env, b);
  }


  /** `--wrap` rejects a following token the column parser does not accept. */
  lemma WrapRejectsColumn(w: string, v: string, env: Env, b: Config)
    requires Classify(w) == Known(WrapFlag) && env.parseColumn(v).None?
    ensures ApplyFlags([w, v], env, 0, NothingApplied, b) == Err(WrapNeedsColumn)
  {
    assert ValueAfter([w, v], 0) == Some(v);
    Stop([w, v], env, 0, NothingApplied, b);
  }

  /** `--wrap` takes the following token as the wrap column. */
  lemma WrapTakesColumn(w: string, v: string, env: Env, b: Config)
    requires Classify(w) == Known(WrapFlag) && env.parseColumn(v).Some?
    ensures FinishesWith(ApplyFlags([w, v], env, 0, NothingApplied, b), b.(wrap := env.parseColumn(v).value))
  {
    var args := [w, v];
    assert ValueAfter(args, 0) == Some(v);
    var s0 := StepAt(args, env, 0, NothingApplied, b);
    assert s0 == Continue(Mark(NothingApplied, Known(WrapFlag)), b.(wrap := env.parseColumn(v).value));
    Proceed(args, env, 0, NothingApplied, b);
    assert Next(args, FlagPass, 0) == 2;
    Done(args, env, s0.applied, s0.cfg);
  }

  /** `--media` takes the following token as the media program, whatever
      it looks like. */
  lemma MediaTakesProgram(m: string, v: string, env: Env, b: Config)
    requires Classify(m) == Known(MediaFlag)
    ensures FinishesWith(ApplyFlags([m, v], env, 0, NothingApplied, b), b.(media := Some(v)))
  {
    var args := [m, v];
    assert ValueAfter(args, 0) == Some(v);
    var s0 := StepAt(args, env, 0, NothingApplied, b);
    assert s0 == Continue(Mark(NothingApplied, Known(MediaFlag)), b.(media := Some(v)));
    Proceed(args, env, 0, NothingApplied, b);
    assert Next(args, FlagPass, 0) == 2;
    Done(args, env, s0.applied, s0.cfg);
  }

  /** `--encoding` reports an encoding name the catalog rejects with the
      catalog's own message. */
  lemma EncodingRejectsName(e: string, v: string, env: Env, b: Config)
    requires Classify(e) == Known(EncodingFlag) && env.encodingFromStr(v).Err?
    ensures ApplyFlags([e, v], env, 0, NothingApplied, b) == Err(EncodingRejected(env.encodingFromStr(v).error))
  {
    assert ValueAfter([e, v], 0) == Some(v);
    Stop([e, v], env, 0, NothingApplied, b);
  }

  /** `--encoding` takes the following token as an encoding name. */
  lemma EncodingTakesName(e: string, v: string, env: Env, b: Config)
    requires Classify(e) == Known(EncodingFlag) && env.encodingFromStr(v).Ok?
    ensures FinishesWith(ApplyFlags([e, v], env, 0, NothingApplied, b), b.(encoding := env.encodingFromStr(v).value))
  {
    var args := [e, v];
    assert ValueAfter(args, 0) == Some(v);
    var s0 := StepAt(args, env, 0, NothingApplied, b);
    assert s0 == Continue(Mark(NothingApplied, Known(EncodingFlag)), b.(encoding := env.encodingFromStr(v).value));
    Proceed(args, env, 0, NothingApplied, b);
    assert Next(args, FlagPass, 0) == 2;
    Done(args, env, s0.applied, s0.cfg);
  }

  // -------------------------------------------------------------- the mode

  /** `--raw` alone is rejected: it needs a second argument. */
  lemma RawAloneRejected(r: string, env: Env, b: Config)
    requires Classify(r) == Known(RawFlag)
    ensures ApplyFlags([r], env, 0, NothingApplied, b) == Err(RawNeedsUrl)
  {
    Stop([r], env, 0, NothingApplied, b);
  }

  /** Any second argument satisfies `--raw`, even `--no-config`. */
  lemma RawCountsEveryArgument(r: string, c: string, env: Env, b: Config)
    requires Classify(r) == Known(RawFlag) && Classify(c) == Known(NoConfigFlag)
    ensures FinishesWith(ApplyFlags([r, c], env, 0, NothingApplied, b), b.(mode := Raw))
  {
    var args, a1, c1 := [r, c], Mark(NothingApplied, Known(RawFlag)), b.(mode := Raw);
    RawStep(args, env, 0, NothingApplied, b);
    NoConfigStep(args, env, 1, a1, c1);
    Done(args, env, a1, c1);
  }

  /** `--print` then `--raw` ends in raw mode: the later flag wins. */
  lemma PrintThenRaw(p: string, r: string, env: Env, b: Config)
    requires Classify(p) == Known(PrintFlag) && Classify(r) == Known(RawFlag)
    ensures FinishesWith(ApplyFlags([p, r], env, 0, NothingApplied, b), b.(mode := Raw))
  {
    var a1 := Mark(NothingApplied, Known(PrintFlag));
    PrintStep([p, r], env, 0, NothingApplied, b);
    RawStep([p, r], env, 1, a1, b.(mode := Print));
    Done([p, r], env, Mark(a1, Known(RawFlag)), b.(mode := Raw));
  }

  /** `--raw` then `--print` ends in print mode: the later flag wins. */
  lemma RawThenPrint(p: string, r: string, env: Env, b: Config)
    requires Classify(p) == Known(PrintFlag) && Classify(r) == Known(RawFlag)
    ensures FinishesWith(ApplyFlags([r, p], env, 0, NothingApplied, b), b.(mode := Print))
  {
    var a1 := Mark(NothingApplied, Known(RawFlag));
    RawStep([r, p], env, 0, NothingApplied, b);
    PrintStep([r, p], env, 1, a1, b.(mode := Raw));
    Done([r, p], env, Mark(a1, Known(PrintFlag)), b.(mode := Print));
  }

  // ------------------------------------------------ longer lists, in order

  /** `--raw` then a word: raw mode on the trimmed word. */
  lemma RawThenTarget(r: string, u: string, env: Env, b: Config)
    requires Classify(r) == Known(RawFlag) && Classify(u) == Bare
    ensures FinishesWith(ApplyFlags([r, u], env, 0, NothingApplied, b), b.(mode := Raw, start := Trim(u)))
  {
    var a1 := Mark(NothingApplied, Known(RawFlag));
    RawStep([r, u], env, 0, NothingApplied, b);
    BareStep([r, u], env, 1, a1, b.(mode := Raw));
    Done([r, u], env, Mark(a1, Bare), b.(mode := Raw, start := Trim(u)));
  }

  /** `--print` then a word: print mode on the trimmed word. */
  lemma PrintThenTarget(p: string, u: string, env: Env, b: Config)
    requires Classify(p) == Known(PrintFlag) && Classify(u) == Bare
    ensures FinishesWith(ApplyFlags([p, u], env, 0, NothingApplied, b), b.(mode := Print, start := Trim(u)))
  {
    var a1 := Mark(NothingApplied, Known(PrintFlag));
    PrintStep([p, u], env, 0, NothingApplied, b);
    BareStep([p, u], env, 1, a1, b.(mode := Print));
    Done([p, u], env, Mark(a1, Bare), b.(mode := Print, start := Trim(u)));
  }

  /** `--tls` then `--local` in a build with TLS support. */
  lemma TlsThenLocal(x: string, l: string, env: Env, b: Config)
    requires Classify(x) == Known(TlsFlag) && Classify(l) == Known(LocalFlag) && env.tlsFeature
    ensures FinishesWith(ApplyFlags([x, l], env, 0, NothingApplied, b), b.(tls := true, start := LocalStart))
  {
    var a1 := Mark(NothingApplied, Known(TlsFlag));
    TlsStep([x, l], env, 0, NothingApplied, b);
    LocalStep([x, l], env, 1, a1, b.(tls := true));
    Done([x, l], env, Mark(a1, Known(LocalFlag)), b.(tls := true, start := LocalStart));
  }

  /** `--tor` then `--no-tls` in a build with Tor support. */
  lemma TorThenNoTls(t: string, n: string, env: Env, b: Config)
    requires Classify(t) == Known(TorFlag) && Classify(n) == Known(NoTlsFlag) && env.torFeature
    ensures FinishesWith(ApplyFlags([t, n], env, 0, NothingApplied, b), b.(tor := true, tls := false))
  {
    var a1 := Mark(NothingApplied, Known(TorFlag));
    TorStep([t, n], env, 0, NothingApplied, b);
    NoTlsStep([t, n], env, 1, a1, b.(tor := true));
    Done([t, n], env, Mark(a1, Known(NoTlsFlag)), b.(tor := true, tls := false));
  }

  /** `--raw`, `--tls`, `--no-config`: raw mode with TLS; `--no-config`
      changes nothing here. */
  lemma RawTlsNoConfig(r: string, x: string, c: string, env: Env, b: Config)
    requires Classify(r) == Known(RawFlag) && Classify(x) == Known(TlsFlag) && Classify(c) == Known(NoConfigFlag)
    requires env.tlsFeature
    ensures FinishesWith(ApplyFlags([r, x, c], env, 0, NothingApplied, b), b.(mode := Raw, tls := true))
  {
    var args := [r, x, c];
    var a1, c1 := Mark(NothingApplied, Known(RawFlag)), b.(mode := Raw);
    var a2, c2 := Mark(a1, Known(TlsFlag)), c1.(tls := true);
    RawStep(args, env, 0, NothingApplied, b);
    TlsStep(args, env, 1, a1, c1);
    NoConfigEnds(args, env, 2, a2, c2);
  }

  /** An unknown flag after `--local` is still rejected and named. */
  lemma LocalThenUnknown(l: string, x: string, env: Env, b: Config)
    requires Classify(l) == Known(LocalFlag) && Classify(x) == Unknown
    ensures ApplyFlags([l, x], env, 0, NothingApplied, b) == Err(UnknownFlag(x))
  {
    LocalStep([l, x], env, 0, NothingApplied, b);
    UnknownAt([l, x], env, 1, Mark(NothingApplied, Known(LocalFlag)), b.(start := LocalStart));
  }
}
