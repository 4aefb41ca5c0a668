/** Properties of the command-line resolver, stated over the positions each
    pass actually visits (`Occurrences`, `Visits`): a value-taking flag hides
    the token after it from the rest of its pass. */
module ArgsProperties {
  import opened Results
  import opened Strings
  import opened Flags
  import opened Args

  // ------------------------------------------------------ one iteration

  /** One iteration that goes on never brings a flag together with its
      opposite, never applies `--autoplay` after `--no-media`, takes a bare
      word only while no URL is set, and applies `--raw` only when the
      argument list has more than one element. */
  lemma TokenKeepsConsistent(env: Env, t: Token, arg: string, value: Option<string>, argCount: nat, a: Applied, cfg: Config)
    ensures var s := ApplyToken(env, t, arg, value, argCount, a, cfg);
            s.Continue? ==>
              && (a.tls ==> t != Known(NoTlsFlag)) && (a.noTls ==> t != Known(TlsFlag))
              && (a.tor ==> t != Known(NoTorFlag)) && (a.noTor ==> t != Known(TorFlag))
              && (a.media ==> t != Known(NoMediaFlag)) && (a.noMedia ==> t != Known(MediaFlag))
              && (a.autoplay ==> t != Known(NoAutoplayFlag)) && (a.noAutoplay ==> t != Known(AutoplayFlag))
              && (a.noMedia ==> t != Known(AutoplayFlag))
              && (a.url ==> t != Bare)
              && (t == Known(RawFlag) ==> argCount > 1)
  {
    match t {
      case Known(f) =>
        match f {
          case NoConfigFlag =>
          case ConfigFlag =>
          case VersionFlag =>
          case HelpFlag =>
          case RawFlag =>
          case PrintFlag =>
          case LocalFlag =>
          case TlsFlag =>
          case NoTlsFlag =>
          case TorFlag =>
          case NoTorFlag =>
          case WrapFlag =>
          case MediaFlag =>
          case NoMediaFlag =>
          case AutoplayFlag =>
          case NoAutoplayFlag =>
          case EncodingFlag =>
        }
      case _ =>
    }
  }

  /** An iteration that goes on never leaves a flag applied together with
      its opposite. */
  lemma FlagKeepsConsistent(env: Env, f: Flag, value: Option<string>, argCount: nat, a: Applied, cfg: Config)
    requires Consistent(a)
    ensures var s := ApplyFlag(env, f, value, argCount, a, cfg);
            s.Continue? ==> Consistent(s.applied)
  {
    TokenKeepsConsistent(env, Known(f), "", value, argCount, a, cfg);
  }

  /** How one iteration on a flag ends: only `--help` and `--version` stop
      the pass, in their mode, and a flag that goes on is recorded. */
  lemma FlagOutcome(env: Env, f: Flag, value: Option<string>, argCount: nat, a: Applied, cfg: Config)
    ensures var s := ApplyFlag(env, f, value, argCount, a, cfg);
            && (s.Halt? <==> f == HelpFlag || f == VersionFlag)
            && (s.Halt? ==> s.cfg == cfg.(mode := if f == HelpFlag then Help else Version))
            && (s.Continue? ==> s.applied == Mark(a, Known(f)) && s.cfg.wide == cfg.wide)
  {
    match f
    case NoConfigFlag =>
    case ConfigFlag =>
    case VersionFlag =>
    case HelpFlag =>
    case RawFlag =>
    case PrintFlag =>
    case LocalFlag =>
    case TlsFlag =>
    case NoTlsFlag =>
    case TorFlag =>
    case NoTorFlag =>
    case WrapFlag =>
    case MediaFlag =>
    case NoMediaFlag =>
    case AutoplayFlag =>
    case NoAutoplayFlag =>
    case EncodingFlag =>
  }

  /** The flags pass 1 handles are stepped over, a value-taking flag with no
      token after it fails, and no failure here is one of pass 1's errors or
      the final TLS/Tor check. */
  lemma FlagFailures(env: Env, f: Flag, value: Option<string>, argCount: nat, a: Applied, cfg: Config)
    ensures var s := ApplyFlag(env, f, value, argCount, a, cfg);
            && (s.Fail? ==> !s.error.FromConfigPass() && s.error != TorAndTls)
            && (f == ConfigFlag || f == NoConfigFlag ==> s == Continue(Mark(a, Known(f)), cfg))
            && (TakesValue(f) && f != ConfigFlag && value.None? ==> s.Fail?)
  {
    match f
    case NoConfigFlag =>
    case ConfigFlag =>
    case VersionFlag =>
    case HelpFlag =>
    case RawFlag =>
    case PrintFlag =>
    case LocalFlag =>
    case TlsFlag =>
    case NoTlsFlag =>
    case TorFlag =>
    case NoTorFlag =>
    case WrapFlag =>
    case MediaFlag =>
    case NoMediaFlag =>
    case AutoplayFlag =>
    case NoAutoplayFlag =>
    case EncodingFlag =>
  }

  /** What a flag that lets the iteration go on does to the three on/off settings. */
  lemma FlagToggles(env: Env, f: Flag, value: Option<string>, argCount: nat, a: Applied, cfg: Config)
    ensures var s := ApplyFlag(env, f, value, argCount, a, cfg);
            s.Continue? ==>
              && s.cfg.tls == (if f == TlsFlag then true else if f == NoTlsFlag then false else cfg.tls)
              && s.cfg.tor == (if f == TorFlag then true else if f == NoTorFlag then false else cfg.tor)
              && s.cfg.autoplay == (if f == AutoplayFlag then true else if f == NoAutoplayFlag then false else cfg.autoplay)
  {
    match f
    case NoConfigFlag =>
    case ConfigFlag =>
    case VersionFlag =>
    case HelpFlag =>
    case RawFlag =>
    case PrintFlag =>
    case LocalFlag =>
    case TlsFlag =>
    case NoTlsFlag =>
    case TorFlag =>
    case NoTorFlag =>
    case WrapFlag =>
    case MediaFlag =>
    case NoMediaFlag =>
    case AutoplayFlag =>
    case NoAutoplayFlag =>
    case EncodingFlag =>
  }

  /** What a flag that lets the iteration go on does to the settings that
      take a value. */
  lemma FlagValues(env: Env, f: Flag, value: Option<string>, argCount: nat, a: Applied, cfg: Config)
    ensures var s := ApplyFlag(env, f, value, argCount, a, cfg);
            s.Continue? ==>
              && (f == MediaFlag ==> value.Some? && s.cfg.media == value)
              && (f == WrapFlag ==> value.Some? && env.parseColumn(value.value) == Some(s.cfg.wrap))
              && (f == EncodingFlag ==> value.Some? && env.encodingFromStr(value.value) == Ok(s.cfg.encoding))
              && (f == NoMediaFlag ==> s.cfg.media.None?)
              && (f != MediaFlag && f != NoMediaFlag ==> s.cfg.media == cfg.media)
              && (f != WrapFlag ==> s.cfg.wrap == cfg.wrap)
              && (f != EncodingFlag ==> s.cfg.encoding == cfg.encoding)
  {
    match f
    case NoConfigFlag =>
    case ConfigFlag =>
    case VersionFlag =>
    case HelpFlag =>
    case RawFlag =>
    case PrintFlag =>
    case LocalFlag =>
    case TlsFlag =>
    case NoTlsFlag =>
    case TorFlag =>
    case NoTorFlag =>
    case WrapFlag =>
    case MediaFlag =>
    case NoMediaFlag =>
    case AutoplayFlag =>
    case NoAutoplayFlag =>
    case EncodingFlag =>
  }

  /** What a flag that lets the iteration go on does to the mode, the start
      URL and the settings no flag touches. */
  lemma FlagModeAndStart(env: Env, f: Flag, value: Option<string>, argCount: nat, a: Applied, cfg: Config)
    ensures var s := ApplyFlag(env, f, value, argCount, a, cfg);
            s.Continue? ==>
              && (f == RawFlag ==> s.cfg.mode == Raw)
              && (f == PrintFlag ==> s.cfg.mode == Print)
              && (f != RawFlag && f != PrintFlag ==> s.cfg.mode == cfg.mode)
              && (f == LocalFlag ==> s.cfg.start == LocalStart)
              && (f != LocalFlag ==> s.cfg.start == cfg.start)
              && s.cfg.wide == cfg.wide
  {
    match f
    case NoConfigFlag =>
    case ConfigFlag =>
    case VersionFlag =>
    case HelpFlag =>
    case RawFlag =>
    case PrintFlag =>
    case LocalFlag =>
    case TlsFlag =>
    case NoTlsFlag =>
    case TorFlag =>
    case NoTorFlag =>
    case WrapFlag =>
    case MediaFlag =>
    case NoMediaFlag =>
    case AutoplayFlag =>
    case NoAutoplayFlag =>
    case EncodingFlag =>
  }

  /** What one iteration that goes on does to the three on/off settings. */
  lemma TokenToggles(env: Env, t: Token, arg: string, value: Option<string>, argCount: nat, a: Applied, cfg: Config)
    ensures var s := ApplyToken(env, t, arg, value, argCount, a, cfg);
            s.Continue? ==>
              && s.cfg.tls == (if t == Known(TlsFlag) then true else if t == Known(NoTlsFlag) then false else cfg.tls)
              && s.cfg.tor == (if t == Known(TorFlag) then true else if t == Known(NoTorFlag) then false else cfg.tor)
              && s.cfg.autoplay ==
                 (if t == Known(AutoplayFlag) then true else if t == Known(NoAutoplayFlag) then false else cfg.autoplay)
  {
    if t.Known? { FlagToggles(env, t.flag, value, argCount, a, cfg); }
  }

  /** What one iteration that goes on does to the other settings. */
  lemma TokenSettings(env: Env, t: Token, arg: string, value: Option<string>, argCount: nat, a: Applied, cfg: Config)
    ensures var s := ApplyToken(env, t, arg, value, argCount, a, cfg);
            s.Continue? ==>
              && (t == Known(MediaFlag) ==> value.Some? && s.cfg.media == value)
              && (t == Known(WrapFlag) ==> value.Some? && env.parseColumn(value.value) == Some(s.cfg.wrap))
              && (t == Known(EncodingFlag) ==> value.Some? && env.encodingFromStr(value.value) == Ok(s.cfg.encoding))
              && (t == Known(NoMediaFlag) ==> s.cfg.media.None?)
              && (t != Known(MediaFlag) && t != Known(NoMediaFlag) ==> s.cfg.media == cfg.media)
              && (t != Known(WrapFlag) ==> s.cfg.wrap == cfg.wrap)
              && (t != Known(EncodingFlag) ==> s.cfg.encoding == cfg.encoding)
              && (t == Known(RawFlag) ==> s.cfg.mode == Raw)
              && (t == Known(PrintFlag) ==> s.cfg.mode == Print)
              && (t != Known(RawFlag) && t != Known(PrintFlag) ==> s.cfg.mode == cfg.mode)
              && (t == Known(LocalFlag) ==> s.cfg.start == LocalStart)
              && (t == Bare ==> s.cfg.start == Trim(arg))
              && (t != Known(LocalFlag) && t != Bare ==> s.cfg.start == cfg.start)
              && s.cfg.wide == cfg.wide
  {
    if t.Known? {
      FlagValues(env, t.flag, value, argCount, a, cfg);
      FlagModeAndStart(env, t.flag, value, argCount, a, cfg);
    }
  }

  // ------------------------------------------------------------ pass 2

  /** From position `i` on, once a flag is applied (before `i` or at a
      visited position) its opposite is not at a visited position. */
  predicate Excludes(args: seq<string>, i: nat, hasOn: bool, hasOff: bool, on: Flag, off: Flag) {
    && (hasOn || Count(args, i, on) > 0 ==> Count(args, i, off) == 0)
    && (hasOff || Count(args, i, off) > 0 ==> Count(args, i, on) == 0)
  }

  /** Pass 2 unfolded once at a position where the iteration goes on. */
  lemma ApplyFlagsUnfold(args: seq<string>, env: Env, i: nat, a: Applied, cfg: Config)
    requires i < |args| && StepAt(args, env, i, a, cfg).Continue?
    ensures var s := StepAt(args, env, i, a, cfg);
            ApplyFlags(args, env, i, a, cfg) == ApplyFlags(args, env, Next(args, FlagPass, i), s.applied, s.cfg)
    ensures forall x: Token ::
              Occurrences(args, FlagPass, i, x)
              == (if Classify(args[i]) == x then 1 else 0) + Occurrences(args, FlagPass, Next(args, FlagPass, i), x)
  {
  }

  /** After a complete pass 2, each flag is recorded as applied exactly when
      it was applied before or occurs at a visited position. */
  lemma {:induction false} AppliedRecordsFlags(args: seq<string>, env: Env, i: nat, a: Applied, cfg: Config)
    decreases |args| - i
    ensures var r := ApplyFlags(args, env, i, a, cfg);
            r.Ok? && r.value.Finished? ==>
              r.value.applied == Applied(
                a.url || Occurrences(args, FlagPass, i, Bare) > 0,
                a.tls || Count(args, i, TlsFlag) > 0,
                a.noTls || Count(args, i, NoTlsFlag) > 0,
                a.tor || Count(args, i, TorFlag) > 0,
                a.noTor || Count(args, i, NoTorFlag) > 0,
                a.media || Count(args, i, MediaFlag) > 0,
                a.noMedia || Count(args, i, NoMediaFlag) > 0,
                a.autoplay || Count(args, i, AutoplayFlag) > 0,
                a.noAutoplay || Count(args, i, NoAutoplayFlag) > 0)
  {
    if i < |args| {
      var s := StepAt(args, env, i, a, cfg);
      if s.Continue? {
        ApplyFlagsUnfold(args, env, i, a, cfg);
        AppliedRecordsFlags(args, env, Next(args, FlagPass, i), s.applied, s.cfg);
      }
    }
  }

  /** A complete pass 2 never meets a flag together with its opposite. */
  lemma {:induction false} ApplyFlagsExcludes(args: seq<string>, env: Env, i: nat, a: Applied, cfg: Config)
    decreases |args| - i
    ensures var r := ApplyFlags(args, env, i, a, cfg);
            r.Ok? && r.value.Finished? ==>
              && Excludes(args, i, a.tls, a.noTls, TlsFlag, NoTlsFlag)
              && Excludes(args, i, a.tor, a.noTor, TorFlag, NoTorFlag)
              && Excludes(args, i, a.media, a.noMedia, MediaFlag, NoMediaFlag)
              && Excludes(args, i, a.autoplay, a.noAutoplay, AutoplayFlag, NoAutoplayFlag)
  {
    if i < |args| {
      var s := StepAt(args, env, i, a, cfg);
      if s.Continue? {
        TokenKeepsConsistent(env, Classify(args[i]), args[i], ValueAfter(args, i), |args|, a, cfg);
        ApplyFlagsUnfold(args, env, i, a, cfg);
        ApplyFlagsExcludes(args, env, Next(args, FlagPass, i), s.applied, s.cfg);
      }
    }
  }

  /** A complete pass 2 never meets `--autoplay` after `--no-media`, takes at
      most one bare word as the URL, and meets `--raw` only in a list of more
      than one argument. */
  lemma {:induction false} ApplyFlagsOrderRules(args: seq<string>, env: Env, i: nat, a: Applied, cfg: Config)
    decreases |args| - i
    ensures var r := ApplyFlags(args, env, i, a, cfg);
            r.Ok? && r.value.Finished? ==>
              && (a.noMedia ==> Count(args, i, AutoplayFlag) == 0)
              && !AutoplayAfterNoMedia(args, i)
              && Occurrences(args, FlagPass, i, Bare) <= (if a.url then 0 else 1)
              && (Count(args, i, RawFlag) > 0 ==> |args| > 1)
  {
    if i < |args| {
      var s := StepAt(args, env, i, a, cfg);
      if s.Continue? {
        TokenKeepsConsistent(env, Classify(args[i]), args[i], ValueAfter(args, i), |args|, a, cfg);
        ApplyFlagsUnfold(args, env, i, a, cfg);
        ApplyFlagsOrderRules(args, env, Next(args, FlagPass, i), s.applied, s.cfg);
      }
    }
  }

  /** A complete pass 2 never leaves a flag applied together with its opposite. */
  lemma ApplyFlagsKeepsConsistent(args: seq<string>, env: Env, i: nat, a: Applied, cfg: Config)
    requires Consistent(a)
    ensures var r := ApplyFlags(args, env, i, a, cfg);
            r.Ok? && r.value.Finished? ==> Consistent(r.value.applied)
  {
    AppliedRecordsFlags(args, env, i, a, cfg);
    ApplyFlagsExcludes(args, env, i, a, cfg);
  }

  /** What a complete pass 2 leaves in the on/off settings: the flag or its
      opposite decides (they never both occur); with neither, the base value
      stays. */
  lemma {:induction false} ApplyFlagsToggles(args: seq<string>, env: Env, i: nat, a: Applied, cfg: Config)
    decreases |args| - i
    ensures var r := ApplyFlags(args, env, i, a, cfg);
            r.Ok? && r.value.Finished? ==>
              var c := r.value.cfg;
              && c.tls == Toggle(cfg.tls, Count(args, i, TlsFlag), Count(args, i, NoTlsFlag))
              && c.tor == Toggle(cfg.tor, Count(args, i, TorFlag), Count(args, i, NoTorFlag))
              && c.autoplay == Toggle(cfg.autoplay, Count(args, i, AutoplayFlag), Count(args, i, NoAutoplayFlag))
  {
    if i < |args| {
      var s := StepAt(args, env, i, a, cfg);
      if s.Continue? {
        var n := Next(args, FlagPass, i);
        TokenToggles(env, Classify(args[i]), args[i], ValueAfter(args, i), |args|, a, cfg);
        ApplyFlagsUnfold(args, env, i, a, cfg);
        ApplyFlagsExcludes(args, env, n, s.applied, s.cfg);
        ApplyFlagsToggles(args, env, n, s.applied, s.cfg);
      }
    }
  }

  /** What a complete pass 2 leaves in the other settings. */
  lemma {:induction false} ApplyFlagsSettings(args: seq<string>, env: Env, i: nat, a: Applied, cfg: Config)
    decreases |args| - i
    ensures var r := ApplyFlags(args, env, i, a, cfg);
            r.Ok? && r.value.Finished? ==>
              var c := r.value.cfg;
              && (Count(args, i, MediaFlag) > 0 ==> c.media.Some?)
              && (Count(args, i, NoMediaFlag) > 0 ==> c.media.None?)
              && (Count(args, i, MediaFlag) == 0 && Count(args, i, NoMediaFlag) == 0 ==> c.media == cfg.media)
              && (Count(args, i, WrapFlag) == 0 ==> c.wrap == cfg.wrap)
              && (Count(args, i, EncodingFlag) == 0 ==> c.encoding == cfg.encoding)
              && (Count(args, i, RawFlag) == 0 && Count(args, i, PrintFlag) == 0 ==> c.mode == cfg.mode)
              && (Count(args, i, LocalFlag) == 0 && Occurrences(args, FlagPass, i, Bare) == 0 ==> c.start == cfg.start)
              && c.wide == cfg.wide
  {
    if i < |args| {
      var s := StepAt(args, env, i, a, cfg);
      if s.Continue? {
        var n := Next(args, FlagPass, i);
        TokenSettings(env, Classify(args[i]), args[i], ValueAfter(args, i), |args|, a, cfg);
        ApplyFlagsUnfold(args, env, i, a, cfg);
        ApplyFlagsExcludes(args, env, n, s.applied, s.cfg);
        ApplyFlagsSettings(args, env, n, s.applied, s.cfg);
      }
    }
  }

  /** The last position, from `i` on, that the pass visits and that holds a
      token read as one of `ts`: nothing of `ts` is visited after it. */
  function LastAt(args: seq<string>, pass: Pass, i: nat, ts: set<Token>): (r: Option<nat>)
    decreases |args| - i
    ensures r.Some? ==> Visits(args, pass, i, r.value) && Classify(args[r.value]) in ts
    ensures r.Some? ==> forall t :: t in ts ==> Occurrences(args, pass, Next(args, pass, r.value), t) == 0
    ensures r.None? ==> forall t :: t in ts ==> Occurrences(args, pass, i, t) == 0
  {
    if i >= |args| then None
    else
      match LastAt(args, pass, Next(args, pass, i), ts)
      case Some(k) => Some(k)
      case None => if Classify(args[i]) in ts then Some(i) else None
  }

  /** What a complete pass 2 leaves in the wrap column: the value after the
      last `--wrap` it visits, as the column parser reads it. */
  lemma {:induction false} ApplyFlagsWrap(args: seq<string>, env: Env, i: nat, a: Applied, cfg: Config)
    decreases |args| - i
    ensures var r := ApplyFlags(args, env, i, a, cfg);
            var w := LastAt(args, FlagPass, i, {Known(WrapFlag)});
            r.Ok? && r.value.Finished? && w.Some? ==>
              ValueAfter(args, w.value).Some? && env.parseColumn(ValueAfter(args, w.value).value) == Some(r.value.cfg.wrap)
  {
    if i < |args| && StepAt(args, env, i, a, cfg).Continue? {
      var s := StepAt(args, env, i, a, cfg);
      var n := Next(args, FlagPass, i);
      ApplyFlagsUnfold(args, env, i, a, cfg);
      if LastAt(args, FlagPass, n, {Known(WrapFlag)}).Some? {
        ApplyFlagsWrap(args, env, n, s.applied, s.cfg);
      } else if Classify(args[i]) == Known(WrapFlag) {
        TokenSettings(env, Classify(args[i]), args[i], ValueAfter(args, i), |args|, a, cfg);
        ApplyFlagsSettings(args, env, n, s.applied, s.cfg);
      }
    }
  }

  /** What a complete pass 2 leaves in the encoding: the value after the
      last `--encoding` it visits, as the encoding lookup reads it. */
  lemma {:induction false} ApplyFlagsEncoding(args: seq<string>, env: Env, i: nat, a: Applied, cfg: Config)
    decreases |args| - i
    ensures var r := ApplyFlags(args, env, i, a, cfg);
            var e := LastAt(args, FlagPass, i, {Known(EncodingFlag)});
            r.Ok? && r.value.Finished? && e.Some? ==>
              ValueAfter(args, e.value).Some? && env.encodingFromStr(ValueAfter(args, e.value).value) == Ok(r.value.cfg.encoding)
  {
    if i < |args| && StepAt(args, env, i, a, cfg).Continue? {
      var s := StepAt(args, env, i, a, cfg);
      var n := Next(args, FlagPass, i);
      ApplyFlagsUnfold(args, env, i, a, cfg);
      if LastAt(args, FlagPass, n, {Known(EncodingFlag)}).Some? {
        ApplyFlagsEncoding(args, env, n, s.applied, s.cfg);
      } else if Classify(args[i]) == Known(EncodingFlag) {
        TokenSettings(env, Classify(args[i]), args[i], ValueAfter(args, i), |args|, a, cfg);
        ApplyFlagsSettings(args, env, n, s.applied, s.cfg);
      }
    }
  }

  /** What a complete pass 2 leaves in the media player: the value after the
      last `--media` it visits (no `--no-media` is visited then). */
  lemma {:induction false} ApplyFlagsMedia(args: seq<string>, env: Env, i: nat, a: Applied, cfg: Config)
    decreases |args| - i
    ensures var r := ApplyFlags(args, env, i, a, cfg);
            var m := LastAt(args, FlagPass, i, {Known(MediaFlag)});
            r.Ok? && r.value.Finished? && m.Some? ==>
              ValueAfter(args, m.value).Some? && r.value.cfg.media == ValueAfter(args, m.value)
  {
    if i < |args| && StepAt(args, env, i, a, cfg).Continue? {
      var s := StepAt(args, env, i, a, cfg);
      var n := Next(args, FlagPass, i);
      ApplyFlagsUnfold(args, env, i, a, cfg);
      if LastAt(args, FlagPass, n, {Known(MediaFlag)}).Some? {
        ApplyFlagsMedia(args, env, n, s.applied, s.cfg);
      } else if Classify(args[i]) == Known(MediaFlag) {
        TokenSettings(env, Classify(args[i]), args[i], ValueAfter(args, i), |args|, a, cfg);
        ApplyFlagsExcludes(args, env, n, s.applied, s.cfg);
        ApplyFlagsSettings(args, env, n, s.applied, s.cfg);
      }
    }
  }

  /** What a complete pass 2 leaves in the mode: the last `--raw` or
      `--print` it visits decides. */
  lemma {:induction false} ApplyFlagsMode(args: seq<string>, env: Env, i: nat, a: Applied, cfg: Config)
    decreases |args| - i
    ensures var r := ApplyFlags(args, env, i, a, cfg);
            var k := LastAt(args, FlagPass, i, {Known(RawFlag), Known(PrintFlag)});
            r.Ok? && r.value.Finished? && k.Some? ==>
              r.value.cfg.mode == (if Classify(args[k.value]) == Known(RawFlag) then Raw else Print)
  {
    if i < |args| && StepAt(args, env, i, a, cfg).Continue? {
      var s := StepAt(args, env, i, a, cfg);
      var n := Next(args, FlagPass, i);
      ApplyFlagsUnfold(args, env, i, a, cfg);
      if LastAt(args, FlagPass, n, {Known(RawFlag), Known(PrintFlag)}).Some? {
        ApplyFlagsMode(args, env, n, s.applied, s.cfg);
      } else if Classify(args[i]) in {Known(RawFlag), Known(PrintFlag)} {
        TokenSettings(env, Classify(args[i]), args[i], ValueAfter(args, i), |args|, a, cfg);
        ApplyFlagsSettings(args, env, n, s.applied, s.cfg);
      }
    }
  }

  /** What a complete pass 2 leaves in the start URL: the last `--local` or
      bare word it visits decides, a bare word with its whitespace trimmed. */
  lemma {:induction false} ApplyFlagsStart(args: seq<string>, env: Env, i: nat, a: Applied, cfg: Config)
    decreases |args| - i
    ensures var r := ApplyFlags(args, env, i, a, cfg);
            var k := LastAt(args, FlagPass, i, {Known(LocalFlag), Bare});
            r.Ok? && r.value.Finished? && k.Some? ==>
              r.value.cfg.start == (if Classify(args[k.value]) == Bare then Trim(args[k.value]) else LocalStart)
  {
    if i < |args| && StepAt(args, env, i, a, cfg).Continue? {
      var s := StepAt(args, env, i, a, cfg);
      var n := Next(args, FlagPass, i);
      ApplyFlagsUnfold(args, env, i, a, cfg);
      if LastAt(args, FlagPass, n, {Known(LocalFlag), Bare}).Some? {
        ApplyFlagsStart(args, env, n, s.applied, s.cfg);
      } else if Classify(args[i]) in {Known(LocalFlag), Bare} {
        TokenSettings(env, Classify(args[i]), args[i], ValueAfter(args, i), |args|, a, cfg);
        ApplyFlagsSettings(args, env, n, s.applied, s.cfg);
      }
    }
  }

  // ---------------------------------------------- stopping at help/version

  /** Pass 2 from position `i` up to, not including, position `k`: the flags
      and configuration it reaches `k` with, or how it ended before `k`. */
  function RunUntil(args: seq<string>, env: Env, i: nat, a: Applied, cfg: Config, k: nat): (s: Step)
    decreases |args| - i
    ensures s.Halt? ==> s.cfg.mode == Help || s.cfg.mode == Version
  {
    if i >= |args| || i >= k then Continue(a, cfg)
    else
      match StepAt(args, env, i, a, cfg)
      case Continue(a', c) => RunUntil(args, env, Next(args, FlagPass, i), a', c, k)
      case s => s
  }

  /** The mode a help or version token stops pass 2 in. */
  function StopMode(t: Token): Mode {
    if t == Known(HelpFlag) then Help else Version
  }

  /** A `--help` or `--version` at any position pass 2 visits ends the pass:
      with the configuration built so far in that flag's mode, unless the
      pass already stopped or failed before reaching it. */
  lemma {:induction false} ApplyFlagsStopsAt(args: seq<string>, env: Env, i: nat, a: Applied, cfg: Config, k: nat)
    requires Visits(args, FlagPass, i, k)
    requires Classify(args[k]) == Known(HelpFlag) || Classify(args[k]) == Known(VersionFlag)
    decreases |args| - i
    ensures ApplyFlags(args, env, i, a, cfg) ==
            match RunUntil(args, env, i, a, cfg, k)
            case Continue(_, c) => Ok(Stopped(c.(mode := StopMode(Classify(args[k])))))
            case Halt(c) => Ok(Stopped(c))
            case Fail(e) => Err(e)
  {
    if i != k {
      VisitsOnward(args, FlagPass, i, k);
      var s := StepAt(args, env, i, a, cfg);
      if s.Continue? {
        ApplyFlagsStopsAt(args, env, Next(args, FlagPass, i), s.applied, s.cfg, k);
      }
    }
  }

  /** One iteration depends on the length of the list only through the
      `--raw` check, which any list of two or more passes. */
  lemma TokenIgnoresLength(env: Env, t: Token, arg: string, value: Option<string>, n: nat, m: nat, a: Applied, cfg: Config)
    requires n > 1 && m > 1
    ensures ApplyToken(env, t, arg, value, n, a, cfg) == ApplyToken(env, t, arg, value, m, a, cfg)
  {
  }

  /** Pass 2 up to a position `|p|` reads nothing from position `|p| + 1` on. */
  lemma {:induction false} RunUntilIgnoresRest(p: seq<string>, h: string, q: seq<string>, env: Env, i: nat, a: Applied, cfg: Config)
    decreases |p| - i
    ensures RunUntil(p + [h] + q, env, i, a, cfg, |p|) == RunUntil(p + [h], env, i, a, cfg, |p|)
    ensures Visits(p + [h] + q, FlagPass, i, |p|) <==> Visits(p + [h], FlagPass, i, |p|)
  {
    var x, y := p + [h] + q, p + [h];
    if i < |p| {
      assert x[i] == y[i] == p[i];
      assert ValueAfter(x, i) == ValueAfter(y, i) == Some(y[i + 1]);
      assert Next(x, FlagPass, i) == Next(y, FlagPass, i);
      TokenIgnoresLength(env, Classify(p[i]), p[i], ValueAfter(y, i), |x|, |y|, a, cfg);
      var s := StepAt(y, env, i, a, cfg);
      assert StepAt(x, env, i, a, cfg) == s;
      if s.Continue? {
        RunUntilIgnoresRest(p, h, q, env, Next(y, FlagPass, i), s.applied, s.cfg);
      } else {
        RunUntilIgnoresRest(p, h, q, env, Next(y, FlagPass, i), a, cfg);
      }
    }
  }

  /** The help or version flag `h` after the tokens `p`, when pass 2 reaches
      it, decides pass 2 whatever tokens `q` follow it. */
  lemma HelpIgnoresRest(p: seq<string>, h: string, q: seq<string>, env: Env, a: Applied, cfg: Config)
    requires Classify(h) == Known(HelpFlag) || Classify(h) == Known(VersionFlag)
    requires Visits(p + [h], FlagPass, 0, |p|)
    ensures ApplyFlags(p + [h] + q, env, 0, a, cfg) ==
            match RunUntil(p + [h], env, 0, a, cfg, |p|)
            case Continue(_, c) => Ok(Stopped(c.(mode := StopMode(Classify(h)))))
            case Halt(c) => Ok(Stopped(c))
            case Fail(e) => Err(e)
  {
    RunUntilIgnoresRest(p, h, q, env, 0, a, cfg);
    assert (p + [h] + q)[|p|] == h;
    ApplyFlagsStopsAt(p + [h] + q, env, 0, a, cfg, |p|);
  }

  /** Pass 2 that reaches position `k` still going ends as pass 2 from `k`
      with what it reached it with; otherwise it ends as it did before `k`. */
  lemma {:induction false} ApplyFlagsReaches(args: seq<string>, env: Env, i: nat, a: Applied, cfg: Config, k: nat)
    requires Visits(args, FlagPass, i, k)
    decreases |args| - i
    ensures ApplyFlags(args, env, i, a, cfg) ==
            match RunUntil(args, env, i, a, cfg, k)
            case Continue(a', c) => ApplyFlags(args, env, k, a', c)
            case Halt(c) => Ok(Stopped(c))
            case Fail(e) => Err(e)
  {
    if i != k {
      VisitsOnward(args, FlagPass, i, k);
      var s := StepAt(args, env, i, a, cfg);
      if s.Continue? {
        ApplyFlagsReaches(args, env, Next(args, FlagPass, i), s.applied, s.cfg, k);
      }
    }
  }

  /** One iteration rejects an unknown flag by name, and a bare word once
      the URL is taken. */
  lemma TokenRejects(env: Env, t: Token, arg: string, value: Option<string>, argCount: nat, a: Applied, cfg: Config)
    ensures t == Unknown ==> ApplyToken(env, t, arg, value, argCount, a, cfg) == Fail(UnknownFlag(arg))
    ensures t == Bare && a.url ==> ApplyToken(env, t, arg, value, argCount, a, cfg) == Fail(UnknownArgument(arg))
  {
  }

  /** One iteration rejects a flag whose opposite was applied before it. */
  lemma TokenClashes(env: Env, t: Token, arg: string, value: Option<string>, argCount: nat, a: Applied, cfg: Config)
    ensures var s := ApplyToken(env, t, arg, value, argCount, a, cfg);
            && (t == Known(TlsFlag) && a.noTls ==> s == Fail(BothTls))
            && (t == Known(NoTlsFlag) && a.tls ==> s == Fail(BothTls))
            && (t == Known(TorFlag) && a.noTor ==> s == Fail(BothTor))
            && (t == Known(NoTorFlag) && a.tor ==> s == Fail(BothTor))
            && (t == Known(MediaFlag) && a.noMedia ==> s == Fail(BothMedia))
            && (t == Known(NoMediaFlag) && a.media ==> s == Fail(BothMedia))
            && (t == Known(AutoplayFlag) && a.noMedia ==> s == Fail(NoMediaAndAutoplay))
            && (t == Known(AutoplayFlag) && !a.noMedia && a.noAutoplay ==> s == Fail(BothAutoplay))
            && (t == Known(NoAutoplayFlag) && a.autoplay ==> s == Fail(BothAutoplay))
  {
  }

  /** One iteration rejects a flag the build cannot honour, or one that
      lacks a usable value. */
  lemma TokenLacks(env: Env, t: Token, arg: string, value: Option<string>, argCount: nat, a: Applied, cfg: Config)
    ensures var s := ApplyToken(env, t, arg, value, argCount, a, cfg);
            && (t == Known(TlsFlag) && !a.noTls && !env.tlsFeature ==> s == Fail(NoTlsSupport))
            && (t == Known(TorFlag) && !a.noTor && !env.torFeature ==> s == Fail(NoTorSupport))
            && (t == Known(WrapFlag) && (value.None? || env.parseColumn(value.value).None?) ==> s == Fail(WrapNeedsColumn))
            && (t == Known(MediaFlag) && !a.noMedia && value.None? ==> s == Fail(MediaNeedsProgram))
            && (t == Known(EncodingFlag) && value.None? ==> s == Fail(EncodingNeedsName))
            && (t == Known(EncodingFlag) && value.Some? && env.encodingFromStr(value.value).Err? ==>
                  s == Fail(EncodingRejected(env.encodingFromStr(value.value).error)))
  {
  }

  /** `a` already records a token read as `t`. */
  predicate Marked(a: Applied, t: Token) {
    Mark(a, t) == a
  }

  /** The tokens whose reading the applied record tracks. */
  predicate Tracked(t: Token) {
    t == Bare || t in {Known(TlsFlag), Known(NoTlsFlag), Known(TorFlag), Known(NoTorFlag),
                       Known(MediaFlag), Known(NoMediaFlag), Known(AutoplayFlag), Known(NoAutoplayFlag)}
  }

  /** Pass 2 never forgets a token it has recorded. */
  lemma {:induction false} RunUntilKeepsMarks(args: seq<string>, env: Env, i: nat, a: Applied, cfg: Config, k: nat, t: Token)
    requires Marked(a, t) && RunUntil(args, env, i, a, cfg, k).Continue?
    decreases |args| - i
    ensures Marked(RunUntil(args, env, i, a, cfg, k).applied, t)
  {
    if i < |args| && i < k {
      var s := StepAt(args, env, i, a, cfg);
      RunUntilKeepsMarks(args, env, Next(args, FlagPass, i), s.applied, s.cfg, k, t);
    }
  }

  /** Pass 2 that reaches position `k` still going has recorded every token
      it visited before `k`. */
  lemma {:induction false} RunUntilMarks(args: seq<string>, env: Env, i: nat, a: Applied, cfg: Config, k: nat, t: Token)
    requires RunUntil(args, env, i, a, cfg, k).Continue?
    decreases |args| - i
    ensures forall j: nat :: Visits(args, FlagPass, i, j) && j < k && Classify(args[j]) == t ==>
              Marked(RunUntil(args, env, i, a, cfg, k).applied, t)
  {
    var r := RunUntil(args, env, i, a, cfg, k);
    if i < |args| && i < k {
      var s := StepAt(args, env, i, a, cfg);
      var n := Next(args, FlagPass, i);
      RunUntilMarks(args, env, n, s.applied, s.cfg, k, t);
      if Classify(args[i]) == t {
        RunUntilKeepsMarks(args, env, n, s.applied, s.cfg, k, t);
      }
      forall j: nat | Visits(args, FlagPass, i, j) && j < k && Classify(args[j]) == t
        ensures Marked(r.applied, t)
      {
        if j != i {
          VisitsOnward(args, FlagPass, i, j);
        }
      }
    }
  }

  /** Pass 2 that reaches position `k` still going has recorded a tracked
      token only if it was recorded at the start or visited before `k`. */
  lemma {:induction false} RunUntilMarksOnly(args: seq<string>, env: Env, i: nat, a: Applied, cfg: Config, k: nat, t: Token)
    requires RunUntil(args, env, i, a, cfg, k).Continue?
    requires Tracked(t) && Marked(RunUntil(args, env, i, a, cfg, k).applied, t)
    decreases |args| - i
    ensures Marked(a, t) || exists j: nat :: Visits(args, FlagPass, i, j) && j < k && Classify(args[j]) == t
  {
    if i < |args| && i < k && !Marked(a, t) && Classify(args[i]) != t {
      var s := StepAt(args, env, i, a, cfg);
      var n := Next(args, FlagPass, i);
      assert Marked(s.applied, t) <==> Marked(a, t);
      RunUntilMarksOnly(args, env, n, s.applied, s.cfg, k, t);
      var j: nat :| Visits(args, FlagPass, n, j) && j < k && Classify(args[j]) == t;
      assert Visits(args, FlagPass, i, j);
    }
  }

  // ------------------------------------------------------------ pass 1

  /** A visited position other than the start is visited from the next one. */
  lemma VisitsOnward(args: seq<string>, pass: Pass, i: nat, k: nat)
    requires Visits(args, pass, i, k) && i != k
    ensures i < |args| && Visits(args, pass, Next(args, pass, i), k)
  {
  }

  /** A pass visits only positions it counts: the token at a visited
      position is among the pass's occurrences. */
  lemma {:induction false} VisitedIsCounted(args: seq<string>, pass: Pass, i: nat, k: nat)
    requires Visits(args, pass, i, k)
    decreases |args| - i
    ensures Occurrences(args, pass, i, Classify(args[k])) > 0
  {
    if i != k {
      VisitedIsCounted(args, pass, Next(args, pass, i), k);
    }
  }

  /** `--config=FILE` and `-config=FILE` are read as a config assignment. */
  lemma ConfigAssignClassified(prefix: string, file: string)
    requires prefix == "--config=" || prefix == "-config="
    ensures Classify(prefix + file) == ConfigAssign
  {
    var a := prefix + file;
    assert a[..|prefix|] == prefix;
    assert a[|prefix| - 1] == '=';
    forall f ensures !Spells(a, f) {
      LongNameShape(f);
      assert '=' !in "--" + LongName(f) && '=' !in "-" + LongName(f);
    }
    ClassifySpells(a);
  }

  /** The file a config assignment names is the text after its `=`. */
  lemma ConfigAssignFile(prefix: string, file: string)
    requires prefix == "--config=" || prefix == "-config="
    ensures AfterFirst(prefix + file, '=') == Some(file)
  {
    var a := prefix + file;
    var e := |prefix| - 1;
    assert a[e] == '=';
    assert forall j :: 0 <= j < e ==> a[j] != '=';
    var k := IndexOf(a, '=');
    assert k == e;
    assert a[e + 1..] == file;
  }

  /** A config assignment always names a file. */
  lemma ConfigAssignHasFile(a: string)
    requires IsConfigAssign(a)
    ensures AfterFirst(a, '=').Some?
  {
    if StartsWith(a, "--config=") {
      assert a[..9][8] == '=';
    } else {
      assert a[..8][7] == '=';
    }
  }

  /** When every config file loads, pass 1 fails only on `--no-config`
      mixed with a config file, or on a final `-c` with no file after it
      that no `--no-config` preceded. */
  lemma {:induction false} ScanErrorsWhenLoadsSucceed(args: seq<string>, env: Env, i: nat, s: ConfigScan)
    requires forall f :: env.loadFile(f).Ok?
    decreases |args| - i
    ensures var r := ScanConfig(args, env, i, s);
            r.Err? ==>
              || r.error == MixedConfig
              || (r.error == NeedConfigFile && !s.noConfig && Occurrences(args, ConfigPass, i, Known(NoConfigFlag)) == 0)
  {
    if i < |args| {
      match Classify(args[i])
      case Known(NoConfigFlag) =>
        if !s.config {
          ScanErrorsWhenLoadsSucceed(args, env, i + 1, s.(noConfig := true));
        }
      case Known(ConfigFlag) =>
        if !s.noConfig && i + 1 < |args| {
          ScanErrorsWhenLoadsSucceed(args, env, i + 2, ConfigScan(s.noConfig, true, env.loadFile(args[i + 1]).value));
        }
      case ConfigAssign =>
        ConfigAssignHasFile(args[i]);
        if !s.noConfig {
          var file := AfterFirst(args[i], '=').value;
          ScanErrorsWhenLoadsSucceed(args, env, i + 1, ConfigScan(s.noConfig, true, env.loadFile(file).value));
        }
      case Known(_) =>
        ScanErrorsWhenLoadsSucceed(args, env, i + 1, s);
      case Bare =>
        ScanErrorsWhenLoadsSucceed(args, env, i + 1, s);
      case Unknown =>
        ScanErrorsWhenLoadsSucceed(args, env, i + 1, s);
    }
  }

  /** Pass 1 gets past position `j` without an error of its own: the token
      there is not `--no-config`, and if it is a config token, the file it
      names loads. */
  predicate LoadsAt(args: seq<string>, env: Env, j: nat)
    requires j < |args|
  {
    var t := Classify(args[j]);
    && t != Known(NoConfigFlag)
    && (t == Known(ConfigFlag) || t == ConfigAssign ==> NamedFile(args, j).Some? && env.loadFile(NamedFile(args, j).value).Ok?)
  }

  /** Pass 1 moves past a position where it meets no error of its own,
      loading the file a config token there names. */
  lemma ScanStepsOver(args: seq<string>, env: Env, i: nat, s: ConfigScan)
    requires i < |args| && !s.noConfig && LoadsAt(args, env, i)
    ensures var t := Classify(args[i]);
            ScanConfig(args, env, i, s) ==
            ScanConfig(args, env, Next(args, ConfigPass, i),
                       if t == Known(ConfigFlag) || t == ConfigAssign
                       then ConfigScan(false, true, env.loadFile(NamedFile(args, i).value).value)
                       else s)
  {
  }

  /** A config token that names no file, or a file that does not load, ends
      pass 1 there unless a `--no-config` came first. */
  lemma ScanFailsHere(args: seq<string>, env: Env, k: nat, s: ConfigScan)
    requires k < |args| && !s.noConfig
    requires Classify(args[k]) == Known(ConfigFlag) || Classify(args[k]) == ConfigAssign
    requires NamedFile(args, k).Some? ==> env.loadFile(NamedFile(args, k).value).Err?
    ensures ScanConfig(args, env, k, s) ==
            if NamedFile(args, k).None? then Err(NeedConfigFile)
            else Err(LoadingConfig(env.loadFile(NamedFile(args, k).value).error))
  {
  }

  /** A config token at any position `k` that pass 1 reaches, after config
      tokens that all loaded and no `--no-config`, ends pass 1 with its own
      error: the missing file name, or the loader's error for the file. */
  lemma {:induction false} ScanFailsAt(args: seq<string>, env: Env, i: nat, s: ConfigScan, k: nat)
    requires !s.noConfig && Visits(args, ConfigPass, i, k)
    requires Classify(args[k]) == Known(ConfigFlag) || Classify(args[k]) == ConfigAssign
    requires NamedFile(args, k).Some? ==> env.loadFile(NamedFile(args, k).value).Err?
    requires forall j: nat :: Visits(args, ConfigPass, i, j) && j < k ==> LoadsAt(args, env, j)
    decreases |args| - i
    ensures ScanConfig(args, env, i, s) ==
            if NamedFile(args, k).None? then Err(NeedConfigFile)
            else Err(LoadingConfig(env.loadFile(NamedFile(args, k).value).error))
  {
    if i == k {
      ScanFailsHere(args, env, k, s);
    } else {
      var n := Next(args, ConfigPass, i);
      VisitsOnward(args, ConfigPass, i, k);
      ScanStepsOver(args, env, i, s);
      forall j: nat | Visits(args, ConfigPass, n, j) && j < k ensures LoadsAt(args, env, j) {
        assert Visits(args, ConfigPass, i, j);
      }
      var t := Classify(args[i]);
      ScanFailsAt(args, env, n, if t == Known(ConfigFlag) || t == ConfigAssign
                               then ConfigScan(false, true, env.loadFile(NamedFile(args, i).value).value)
                               else s, k);
    }
  }

  /** Every config token pass 1 visits from `i` before the first visited
      `--no-config` names a file that loads. */
  predicate LoadsUntilNoConfig(args: seq<string>, env: Env, i: nat)
    decreases |args| - i
  {
    i >= |args| || Classify(args[i]) == Known(NoConfigFlag) ||
    (LoadsAt(args, env, i) && LoadsUntilNoConfig(args, env, Next(args, ConfigPass, i)))
  }

  /** After a `--no-config`, pass 1 rejects the next config token it meets
      before reading its file. */
  lemma {:induction false} ScanMixesAfterNoConfig(args: seq<string>, env: Env, i: nat, s: ConfigScan)
    requires s.noConfig && !s.config
    requires Occurrences(args, ConfigPass, i, Known(ConfigFlag)) + Occurrences(args, ConfigPass, i, ConfigAssign) > 0
    decreases |args| - i
    ensures ScanConfig(args, env, i, s) == Err(MixedConfig)
  {
    var t := Classify(args[i]);
    if t != Known(ConfigFlag) && t != ConfigAssign {
      var n := Next(args, ConfigPass, i);
      assert n == i + 1;
      ScanMixesAfterNoConfig(args, env, n, if t == Known(NoConfigFlag) then s.(noConfig := true) else s);
    }
  }

  /** Pass 1 rejects `--no-config` mixed with a config file, in either
      order, when the files named before the first `--no-config` load. */
  lemma {:induction false} ScanMixes(args: seq<string>, env: Env, i: nat, s: ConfigScan)
    requires !s.noConfig && LoadsUntilNoConfig(args, env, i)
    requires Occurrences(args, ConfigPass, i, Known(NoConfigFlag)) > 0
    requires s.config || Occurrences(args, ConfigPass, i, Known(ConfigFlag)) + Occurrences(args, ConfigPass, i, ConfigAssign) > 0
    decreases |args| - i
    ensures ScanConfig(args, env, i, s) == Err(MixedConfig)
  {
    var t := Classify(args[i]);
    if t == Known(NoConfigFlag) {
      if !s.config {
        ScanMixesAfterNoConfig(args, env, i + 1, s.(noConfig := true));
      }
    } else {
      ScanStepsOver(args, env, i, s);
      var n := Next(args, ConfigPass, i);
      if t == Known(ConfigFlag) || t == ConfigAssign {
        ScanMixes(args, env, n, ConfigScan(false, true, env.loadFile(NamedFile(args, i).value).value));
      } else {
        ScanMixes(args, env, n, s);
      }
    }
  }

  /** When every config file loads, pass 1 reaches the first `--no-config`
      of a list that has one. */
  lemma {:induction false} AllLoadsReachNoConfig(args: seq<string>, env: Env, i: nat)
    requires forall f :: env.loadFile(f).Ok?
    requires Occurrences(args, ConfigPass, i, Known(NoConfigFlag)) > 0
    decreases |args| - i
    ensures LoadsUntilNoConfig(args, env, i)
  {
    var t := Classify(args[i]);
    if t != Known(NoConfigFlag) {
      if t == ConfigAssign {
        ConfigAssignHasFile(args[i]);
      }
      AllLoadsReachNoConfig(args, env, Next(args, ConfigPass, i));
    }
  }

  /** A `-c` that pass 1 reaches as the last token, with no config token
      before it, is an error: it names no file. */
  lemma {:induction false} ScanDanglingConfig(args: seq<string>, env: Env, i: nat, s: ConfigScan)
    requires !s.noConfig
    requires |args| > 0 && Visits(args, ConfigPass, i, |args| - 1)
    requires Classify(args[|args| - 1]) == Known(ConfigFlag)
    requires Occurrences(args, ConfigPass, i, Known(NoConfigFlag)) == 0
    requires Occurrences(args, ConfigPass, i, Known(ConfigFlag)) == 1
    requires Occurrences(args, ConfigPass, i, ConfigAssign) == 0
    decreases |args| - i
    ensures ScanConfig(args, env, i, s) == Err(NeedConfigFile)
  {
    if i < |args| - 1 {
      var n := Next(args, ConfigPass, i);
      var t := Classify(args[i]);
      VisitsOnward(args, ConfigPass, i, |args| - 1);
      VisitedIsCounted(args, ConfigPass, n, |args| - 1);
      assert Occurrences(args, ConfigPass, n, Known(ConfigFlag)) > 0;
      assert t != Known(ConfigFlag) && t != Known(NoConfigFlag) && t != ConfigAssign;
      ScanDanglingConfig(args, env, i + 1, s);
    }
  }

  /** Pass 1 ignores every token that is not a config token. */
  predicate PassOneIgnores(a: string) {
    var t := Classify(a);
    t != Known(NoConfigFlag) && t != Known(ConfigFlag) && t != ConfigAssign
  }

  /** Pass 1 steps over a token that is not a config token. */
  lemma ScanSkips(args: seq<string>, env: Env, i: nat, s: ConfigScan)
    requires i < |args| && PassOneIgnores(args[i])
    ensures ScanConfig(args, env, i, s) == ScanConfig(args, env, i + 1, s)
  {
  }

  lemma {:induction false} NoConfigTokensFrom(args: seq<string>, i: nat)
    requires forall k :: i <= k < |args| ==> PassOneIgnores(args[k])
    decreases |args| - i
    ensures Occurrences(args, ConfigPass, i, Known(NoConfigFlag)) == 0
    ensures Occurrences(args, ConfigPass, i, Known(ConfigFlag)) == 0
    ensures Occurrences(args, ConfigPass, i, ConfigAssign) == 0
  {
    if i < |args| {
      assert PassOneIgnores(args[i]);
      NoConfigTokensFrom(args, i + 1);
    }
  }

  /** With no config token anywhere, pass 1 yields the default base. */
  lemma LoadBaseIgnoresFlags(args: seq<string>, env: Env)
    requires forall k :: 0 <= k < |args| ==> PassOneIgnores(args[k])
    ensures LoadBase(args, env) == DefaultBase(env)
  {
    NoConfigTokensFrom(args, 0);
  }
}
