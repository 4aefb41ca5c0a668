# phetch command-line parsing and Gopher item types, in Dafny

This project models two parts of phetch, a terminal Gopher client:

- `args::parse`, which turns the command-line arguments into a `Config` (the
  settings snapshot the client starts with) or an `ArgError`;
- the Gopher item-type table: the 24 item kinds, their one-character codes on
  a menu line, and the classification predicates the UI asks about them.

The model is a set of pure functions over immutable datatypes. The proofs
cover the properties the parser and the type table promise.

Modules:

- `Results` (results.dfy): `Option`, `Result` and the `:-` propagation the parser uses.
- `Strings` (strings.dfy): Rust's `str::trim`, `starts_with` and `splitn(2, c).nth(1)`.
- `Flags` (flags.dfy): the 17 flags and their three spellings each:
  `-x`, `--name` and `-name`. Also how a token is classified.
- `Args` (args.dfy): the two passes of `parse`.
  - Pass 1 (`ScanConfig`, `LoadBase`) chooses and loads the base configuration.
  - Pass 2 (`ApplyFlags`, one iteration = `ApplyToken`) applies the flags to it.
  - `Finish` does the final TLS-with-Tor check and the terminal probe.
  - Everything the parser asks of its surroundings is a field of `Env`:
    the config store, the encoding catalog, the column parser, the compiled
    features, `cfg!(test)` and `atty::is(Stdout)`.
- `ArgsProperties`, `ParseProperties` (args_properties.dfy, parse_properties.dfy):
  all-inputs properties of the passes and of `Parse`.
- `FlagPassCases`, `ParseCases` (flag_pass_cases.dfy, parse_cases.dfy):
  `Parse` on short argument lists, for any spelling of the flags involved and
  any environment that meets the stated conditions.
- `ArgsExamples` (args_examples.dfy): the unit tests of `src/args.rs` and a
  few further examples, as lemmas about `Parse` in a test build where no
  config file exists unless an example says otherwise.
- `GopherType` (gopher_type.dfy): the item-type table.

## Model

| member | source | states |
|---|---|---|
| Strings.Trim | src/args.rs:229 | the trimmed start URL has no white space at either end and is no longer than the token |
| Strings.TrimCutsWhitespace | src/args.rs:229 | trimming only removes characters from the two ends: the result is a contiguous slice of the token |
| Strings.TrimByBounds | src/args.rs:229 | the trimmed text is a slice `s[a..b]` in which everything before `a` and from `b` on is white space |
| Strings.TrimDropsTrailing | src/args.rs:260-264 | a word followed by any run of white space trims back to the word |
| Strings.TrimIdempotent | src/args.rs:229 | trimming a trimmed URL changes nothing |
| Strings.StartsWith | src/args.rs:70 | a token starts with a prefix exactly when it is at least as long and agrees with it character by character |
| Strings.AfterFirst | src/args.rs:75-76 | the file of `--config=FILE` is everything after the first `=`; there is none exactly when the token holds no `=` |
| Flags.MatchFindsSpelling | src/args.rs:52-221 | each of the three spellings of a flag selects that flag's arm of the match |
| Flags.MatchOnlySpellings | src/args.rs:52-221 | an arm is selected only by one of its flag's spellings |
| Flags.RecognizeSpells | src/args.rs:110-221 | a token is recognised as flag `f` exactly when it is one of `f`'s spellings |
| Flags.SpellingsDisjoint | src/args.rs:110-221 | no token spells two different flags, so the arms of the match never overlap |
| Flags.ClassifySpells | src/args.rs:222-231 | a token is a known flag iff it spells it; it is the target iff it does not start with `-`; an unknown flag starts with `-`, spells no flag and is no `--config=` |
| Args.Next | src/args.rs:49-233 | each pass moves strictly forward and stays within the list |
| Args.LastConfigFile | src/args.rs:58-86 | a file is loaded only when pass 1 meets at least one `-c` or `--config=` |
| Args.ScanConfig | src/args.rs:49-89 | pass 1 raises only config errors. With no config token it changes nothing. It records `--no-config` and config files exactly when it meets them, and never ends with both |
| Args.ScanKeepsLastFile | src/args.rs:63-82 | pass 1 ends on the configuration of the last file it loads, or keeps its starting configuration when it loads none |
| Args.LoadBase | src/args.rs:44-97 | pass 1 succeeds only if the list does not mix `--no-config` with a config file. With no config token the base is the default source. With `-C` it is the built-in defaults. Otherwise it is the last file loaded |
| Args.DefaultBase | src/args.rs:91-97 | in a test build, or when no default file exists, the base is the built-in defaults. Otherwise it succeeds exactly when the default file loads, and then it is that file's configuration; a failed load is the loader's error passed on |
| Args.MessageKeepsCause | src/args.rs:54-236 | the loader's and the encoding catalog's messages pass through unchanged. A load failure and an unknown flag or argument are reported after a fixed prefix, followed exactly by the cause or the token; no fixed message starts with one of those prefixes |
| Args.ApplyToken | src/args.rs:110-231 | an iteration stops only at `--help`/`--version`, with that mode set. It goes on only for a known flag, a `--config=` or the target, and records what it applied. `--raw` fails only when the list has one element |
| Args.ApplyFlags | src/args.rs:110-233 | pass 2 stops only at a help or version flag it reaches: in help mode only if it reaches a `--help`, in version mode only if it reaches a `--version` (which of the two stops it, and with what, is `ArgsProperties.ApplyFlagsStopsAt`). It finishes only if it met no help, version or unknown flag. It reports a missing URL only for a one-element list holding `--raw` |
| Args.TtyMode | src/args.rs:239-244 | the probe yields either the mode itself or the non-terminal mode, and raw mode exactly when given raw mode. On a terminal or in a test build nothing changes; off a terminal only raw or non-terminal mode comes out |
| Args.TtyModeIdempotent | src/args.rs:239-244 | settling the mode a second time changes nothing |
| Args.Finish | src/args.rs:235-246 | an accepted configuration differs from the one pass 2 ended with only in its mode. The only error is the tor-and-tls one, only for a finished pass with both on, and a finished pass without both is always accepted, with TLS and Tor never both on and its mode settled by the terminal probe. A help/version stop is accepted with its mode kept |
| Args.Parse | src/args.rs:43-247 | an accepted list never mixes config sources. One read to the end never enables TLS and Tor together. The missing-URL error comes only from a lone `--raw` |
| ArgsProperties.TokenKeepsConsistent | src/args.rs:134-213 | an iteration goes on only if it meets no flag whose opposite was applied and no `--autoplay` after `--no-media`. It takes a bare word only while no target is set, and applies `--raw` only in a list of more than one element |
| ArgsProperties.FlagOutcome | src/args.rs:110-221 | one flag stops the pass exactly when it is `--help` or `--version`, with that mode set; a flag that goes on is recorded as applied and leaves the config-only settings alone |
| ArgsProperties.FlagFailures | src/args.rs:110-221 | `-c` and `-C` are stepped over without effect, `--wrap`, `--media` and `--encoding` with no following token fail, and no flag fails with a config error or the final tor-and-tls error |
| ArgsProperties.FlagKeepsConsistent | src/args.rs:134-213 | a flag that goes on never leaves a flag recorded together with its opposite |
| ArgsProperties.TokenRejects | src/args.rs:222-231 | a token that starts with `-` but spells no flag fails as an unknown flag named by the token; a bare word fails as an unknown argument named by the word once the URL is taken |
| ArgsProperties.TokenClashes | src/args.rs:134-213 | a flag whose opposite was applied before it fails with that pair's error; `--autoplay` after `--no-media` fails with its own error, which is checked before the `--no-autoplay` one |
| ArgsProperties.TokenLacks | src/args.rs:134-221 | `--tls`/`--tor` fail without the compiled feature once no opposite was applied; `--wrap` fails without a value or with one that is no column; `--media` and `--encoding` fail without a value; an encoding the catalog rejects fails with the catalog's error |
| ArgsProperties.FlagToggles | src/args.rs:134-213 | each on/off flag sets its setting, its opposite clears it, and no other flag touches it |
| ArgsProperties.FlagValues | src/args.rs:168-221 | `--media` stores the token after it as the program, `--wrap` the column the column parser reads from its token, `--encoding` the encoding the catalog resolves its token to, and each needs that token. `--no-media` clears the program. No other flag touches these settings |
| ArgsProperties.FlagModeAndStart | src/args.rs:120-128 | only `--raw`/`--print` change the mode and only `--local` the start URL; no flag touches the config-only settings |
| ArgsProperties.AppliedRecordsFlags | src/args.rs:100-108 | after a complete pass 2 each `set_*` flag is on exactly when its flag occurs among the positions the pass visits |
| ArgsProperties.ApplyFlagsExcludes | src/args.rs:134-213 | a complete pass 2 never meets a flag together with its opposite |
| ArgsProperties.ApplyFlagsOrderRules | src/args.rs:197-231 | a complete pass 2 never meets `--autoplay` after `--no-media` and takes at most one target. It meets `--raw` only in a list of more than one element |
| ArgsProperties.ApplyFlagsKeepsConsistent | src/args.rs:134-213 | a complete pass 2 from a consistent record leaves a consistent record |
| ArgsProperties.ApplyFlagsToggles | src/args.rs:134-213 | after a complete pass 2, TLS, Tor and autoplay are on if their flag occurred and off if its opposite did. With neither, they keep the base value |
| ArgsProperties.ApplyFlagsSettings | src/args.rs:120-231 | after a complete pass 2, media, column, encoding, mode and start keep the base value when no flag or target that sets them occurred, and a `--no-media` leaves no program; the config-only settings never differ (the values set are in the rows below) |
| ArgsProperties.LastAt | src/args.rs:110-233 | the last position of a given kind that a pass visits: it is visited, holds a token of that kind, and nothing of that kind is visited after it; with none, no such token is visited at all |
| ArgsProperties.ApplyFlagsWrap | src/args.rs:168-178 | after a complete pass 2 the column is what the column parser reads from the token after the last `--wrap` |
| ArgsProperties.ApplyFlagsEncoding | src/args.rs:214-221 | after a complete pass 2 the encoding is what the catalog resolves the token after the last `--encoding` to |
| ArgsProperties.ApplyFlagsMedia | src/args.rs:179-189 | after a complete pass 2 the media program is the token after the last `--media` |
| ArgsProperties.ApplyFlagsMode | src/args.rs:120-127 | after a complete pass 2 the last `--raw` or `--print` decides the mode |
| ArgsProperties.ApplyFlagsStart | src/args.rs:128-230 | after a complete pass 2 the last `--local` or target decides the start URL, a target with its white space trimmed |
| ArgsProperties.RunUntil | src/args.rs:110-233 | pass 2 up to a given position; it can end early only by stopping at help or version, in that mode, or by failing |
| ArgsProperties.ApplyFlagsStopsAt | src/args.rs:110-119 | when pass 2 reaches a `--help` or `--version` at any position, it stops there: in that flag's mode, with the configuration built by the tokens before it, unless one of them already stopped or failed the pass |
| ArgsProperties.TokenIgnoresLength | src/args.rs:120-125 | an iteration depends on the length of the list only through whether it has more than one element |
| ArgsProperties.RunUntilIgnoresRest | src/args.rs:110-233 | what pass 2 does before a position, and which positions it visits there, does not depend on the tokens after that position |
| ArgsProperties.HelpIgnoresRest | src/args.rs:112-119 | a `--help` or `--version` that pass 2 reaches ends the pass the same way whatever tokens follow it |
| ArgsProperties.ApplyFlagsReaches | src/args.rs:110-233 | when pass 2 reaches a position still going, the rest of the pass is pass 2 from that position with the flags and configuration it reached it with; otherwise the pass ends as it did before that position |
| ArgsProperties.RunUntilMarks | src/args.rs:100-213 | when pass 2 reaches a position still going, every URL and every on/off flag it visited before that position is recorded, as `got_url` and the `set_*` variables are |
| ArgsProperties.RunUntilMarksOnly | src/args.rs:100-213 | conversely, the URL or an on/off flag is recorded only if it was recorded at the start or pass 2 visited it before that position |
| ArgsProperties.VisitedIsCounted | src/args.rs:49-233 | a position a pass visits is counted among that pass's tokens |
| ArgsProperties.ConfigAssignClassified | src/args.rs:70 | `--config=FILE` and `-config=FILE` are read as a config assignment whatever the file |
| ArgsProperties.ConfigAssignFile | src/args.rs:75-76 | the file a config assignment names is the text after its `=` |
| ArgsProperties.ConfigAssignHasFile | src/args.rs:83-85 | a config assignment always names a file, so its need-a-file branch cannot be reached |
| ArgsProperties.ScanErrorsWhenLoadsSucceed | src/args.rs:52-86 | when every file loads, pass 1 fails only with the mix error, or for lack of a file when no `--no-config` came before or comes after |
| ArgsProperties.ScanStepsOver | src/args.rs:50-89 | pass 1 moves past a token that is not `--no-config` and whose named file loads, keeping the loaded file |
| ArgsProperties.ScanFailsHere | src/args.rs:58-86 | a config token that names no file fails for lack of one; one whose file does not load fails with the loader's error |
| ArgsProperties.ScanFailsAt | src/args.rs:50-89 | the same at any position pass 1 reaches, once every config token before it has loaded and no `--no-config` came first |
| ArgsProperties.ScanDanglingConfig | src/args.rs:58-68 | a `-c` that pass 1 reaches as the last token, with no other config token, fails for lack of a file |
| ArgsProperties.ScanMixesAfterNoConfig | src/args.rs:58-80 | after a `--no-config`, the next config token pass 1 meets is rejected as a mix before its file is read |
| ArgsProperties.ScanMixes | src/args.rs:50-86 | pass 1 rejects `--no-config` mixed with a config file, in either order, whenever the files named before the first `--no-config` load; files named after it are never read |
| ArgsProperties.AllLoadsReachNoConfig | src/args.rs:58-86 | when every file loads, every config token before the first `--no-config` names a file that loads |
| ArgsProperties.ScanSkips | src/args.rs:87 | pass 1 steps over every token that is not a config token |
| ArgsProperties.NoConfigTokensFrom | src/args.rs:49-89 | a list whose tokens pass 1 all ignores holds no config token at any visited position |
| ArgsProperties.LoadBaseIgnoresFlags | src/args.rs:91-97 | with no config token anywhere, pass 1 yields the default source |
| ParseProperties.ParseAcceptsOnlyConsistentFlags | src/args.rs:134-231 | an accepted list read to the end holds no flag with its opposite, no `--autoplay` after `--no-media`, at most one target and no unknown flag. `--raw` occurs only in a longer list |
| ParseProperties.ParseSettings | src/args.rs:110-246 | the configuration an accepted list produces, setting by setting, in terms of the flags it holds and the base pass 1 loaded |
| ParseProperties.ParseLastFlagWins | src/args.rs:120-246 | an accepted list read to the end has the column read from the token after the last `--wrap`, the encoding resolved from the token after the last `--encoding`, the program after the last `--media`, the mode of the last `--raw` or `--print` settled by the terminal probe, and the start URL of the last `--local` or target |
| ParseProperties.ParseOffTerminal | src/args.rs:239-244 | off a terminal, outside a test build, an accepted list read to the end is in raw or non-terminal mode |
| ParseProperties.HelpOrVersionFirst | src/args.rs:112-119 | a leading `--help` or `--version` returns the base configuration in that mode, whatever follows |
| ParseProperties.ParseStopsAtHelpOrVersion | src/args.rs:110-119 | a `--help` or `--version` that pass 2 reaches at any position returns the configuration the earlier tokens built, in that flag's mode, with no TLS/Tor check or terminal probe, unless an earlier token failed |
| ParseProperties.ParseFailsAt | src/args.rs:110-233 | a token that pass 2 reaches still going and that fails there is the parse's error: nothing after it is read and the final checks are not reached |
| ParseProperties.ParseUnknownAt | src/args.rs:222-231 | at any position pass 2 reaches still going, an unknown flag is rejected as "unknown flag" with that token, and a bare word after the URL as "unknown argument" with that word |
| ParseProperties.ParseClashAt | src/args.rs:134-213 | at any position pass 2 reaches still going, a flag whose opposite was applied before is rejected with that pair's error, and `--autoplay` after `--no-media` with its own |
| ParseProperties.ParseMissingValueAt | src/args.rs:134-221 | at any position pass 2 reaches still going, a TLS or Tor flag the build lacks, and a value flag with no usable value, is rejected with its own error; the catalog's error for an encoding passes through |
| ParseProperties.ParseRejectsAfter | src/args.rs:100-231 | the same by position: a second bare word, or a flag after its opposite at any earlier position pass 2 visited, is rejected with that error when pass 2 reaches it |
| ParseProperties.MixedConfigRejected | src/args.rs:52-86 | any list that mixes `--no-config` with a config file is rejected with "can't mix --config and --no-config" once the files named before the first `--no-config` load, whether or not later ones would |
| ParseProperties.MixedConfigRejectedWhenLoadsSucceed | src/args.rs:52-86 | in particular, a mixing list is rejected when every file loads |
| ParseProperties.ParseConfigFailsAt | src/args.rs:50-89 | a config token at any position pass 1 reaches, after config tokens that all loaded and no `--no-config`, is rejected with "need a config file" when it names no file and with "error loading config: " and the loader's message when its file fails to load |
| ParseProperties.DanglingConfigRejected | src/args.rs:66-68 | a trailing `-c` with no other config token is rejected with "need a config file" |
| ParseProperties.ConfigLoadFailureReported | src/args.rs:63-65 | a leading `-c FILE` whose load fails is reported as "error loading config: " followed by the load error |
| ParseProperties.ConfigAssignLoadFailureReported | src/args.rs:76-82 | the same for `--config=FILE` and `-config=FILE` |
| ParseProperties.NoConfigGivesDefaults | src/args.rs:52-97 | `-C` alone parses to the built-in defaults on a terminal or in a test build |
| ParseProperties.MediaValueSeenByConfigPass | src/args.rs:49-189 | `-m -c` is rejected for lack of a config file: pass 1 reads the media program as a flag |
| ParseProperties.ConfigTakesNoConfigAsFile | src/args.rs:58-69 | `-c` takes the next token as its file even when it is `--no-config`, so `-c -C` loads a file named `-C` and succeeds |
| ParseCases.ParseNoConfig | src/args.rs:43-247 | a list without config tokens goes straight to pass 2 on the default base |
| ParseCases.ParseFinishing | src/args.rs:235-246 | a list without config tokens, whose pass 2 finishes without TLS and Tor together, parses to the finished configuration with its mode settled |
| ParseCases.NoTlsThenTls | src/args.rs:134-137 | `--no-tls` then `--tls` is rejected with the both-tls error |
| ParseCases.TlsThenNoTls | src/args.rs:144-147 | `--tls` then `--no-tls` is rejected with the both-tls error |
| ParseCases.TlsUnsupported | src/args.rs:134-143 | without TLS support, a leading `--tls` is rejected whatever follows |
| ParseCases.NoTorThenTor | src/args.rs:151-154 | `--no-tor` then `--tor` is rejected with the both-tor error |
| ParseCases.TorThenNoTor | src/args.rs:161-164 | `--tor` then `--no-tor` is rejected with the both-tor error |
| ParseCases.TorUnsupported | src/args.rs:151-157 | without Tor support, a leading `--tor` is rejected whatever follows |
| ParseCases.AutoplayThenNoAutoplay | src/args.rs:207-210 | `--autoplay` then `--no-autoplay` is rejected |
| ParseCases.NoAutoplayThenAutoplay | src/args.rs:201-203 | `--no-autoplay` then `--autoplay` is rejected |
| ParseCases.MediaThenNoMedia | src/args.rs:190-193 | `--media PROGRAM` then `--no-media` is rejected |
| ParseCases.NoMediaThenMedia | src/args.rs:179-182 | `--no-media` then `--media PROGRAM` is rejected |
| ParseCases.NoMediaThenAutoplay | src/args.rs:197-200 | `--no-media` then `--autoplay` is rejected |
| ParseCases.AutoplayThenNoMedia | src/args.rs:190-206 | `--autoplay` then `--no-media` is accepted, with autoplay on and no media program |
| ParseCases.TlsAndTorRejected | src/args.rs:235-237 | `--tls` with `--tor` passes the flag loop and is rejected by the final check |
| ParseCases.TargetIsTrimmed | src/args.rs:225-230 | a bare word becomes the start URL, trimmed |
| ParseCases.SecondTargetRejected | src/args.rs:225-226 | a second bare word is rejected and named in the error |
| ParseCases.UnknownFlagRejected | src/args.rs:223-224 | a leading token that starts with `-` and spells no flag is rejected and named in the error |
| ParseCases.LocalSetsStart | src/args.rs:128 | `--local` sets the start URL to the local server |
| ParseCases.ValueFlagLast | src/args.rs:168-221 | `--wrap`, `--media` or `--encoding` with no following token is rejected with that flag's own error |
| ParseCases.WrapRejectsColumn | src/args.rs:168-174 | `--wrap` with a token the column parser rejects is rejected |
| ParseCases.WrapTakesColumn | src/args.rs:168-171 | `--wrap N` sets the wrap column to the parsed `N` |
| ParseCases.MediaTakesProgram | src/args.rs:179-185 | `--media P` sets the media program to `P` |
| ParseCases.EncodingRejectsName | src/args.rs:214-217 | `--encoding` with a name the catalog rejects reports the catalog's message |
| ParseCases.EncodingTakesName | src/args.rs:214-216 | `--encoding E` sets the encoding the catalog resolves `E` to |
| ParseCases.RawAloneRejected | src/args.rs:120-125 | `--raw` alone is rejected: it needs a second argument |
| ParseCases.RawCountsEveryArgument | src/args.rs:120-122 | any second argument satisfies `--raw`, even `--no-config` |
| ParseCases.PrintThenRaw | src/args.rs:120-127 | the later of `--print` and `--raw` decides the mode: raw here |
| ParseCases.RawThenPrint | src/args.rs:120-127 | the later of `--raw` and `--print` decides the mode: print here |
| ParseCases.RawWithTarget | src/args.rs:120-231 | `--raw URL` is raw mode on the trimmed URL, on or off a terminal |
| ParseCases.PrintWithTarget | src/args.rs:127-231 | `--print URL` is print mode on the trimmed URL |
| ParseCases.TlsThenLocal | src/args.rs:128-143 | `--tls --local` enables TLS and starts on the local server |
| ParseCases.TorThenNoTls | src/args.rs:144-160 | `--tor --no-tls` enables Tor and disables TLS |
| ParseCases.RawTlsNoConfig | src/args.rs:52-143 | `-r -s -C` gives the built-in defaults in raw mode with TLS on |
| ParseCases.LocalThenUnknown | src/args.rs:128-224 | an unknown flag after `--local` is rejected and named |
| ArgsExamples.LocalFlagExample | src/args.rs:253-258 | `-l` sets the local start URL and leaves `wide` off |
| ArgsExamples.TrailingWhitespaceExample | src/args.rs:260-264 | `"some-url.io   "` starts at `some-url.io` |
| ArgsExamples.UnknownFlagExample | src/args.rs:266-269 | `-z` is an unknown flag |
| ArgsExamples.UnknownFlagAfterLocalExample | src/args.rs:271-272 | `-l -x` rejects `-x` as an unknown flag |
| ArgsExamples.SecondUrlExample | src/args.rs:274-275 | `sdf.org sdf2.org` rejects `sdf2.org` as an unknown argument |
| ArgsExamples.LongLocalExample | src/args.rs:279-281 | `--local` sets the local start URL |
| ArgsExamples.TlsThenLocalExample | src/args.rs:283-285 | `-s -l` enables TLS and starts on the local server |
| ArgsExamples.RawWithUrlExample | src/args.rs:289-292 | `--raw sdf.org` is raw mode on `sdf.org` |
| ArgsExamples.RawAloneExample | src/args.rs:294-295 | `--raw` alone fails for lack of a URL |
| ArgsExamples.PrintWithUrlExample | src/args.rs:299-302 | `--print sdf.org` is print mode on `sdf.org` |
| ArgsExamples.PrintAloneExample | src/args.rs:303 | `--print` alone is accepted, in print mode |
| ArgsExamples.HelpExample | src/args.rs:308-310 | `--help` is help mode |
| ArgsExamples.VersionExample | src/args.rs:314-316 | `--version` is version mode |
| ArgsExamples.VersionBeforeUnknownExample | src/args.rs:112-115 | `--version -z` is version mode: the unknown flag after it is never read |
| ArgsExamples.TlsThenHelp | src/args.rs:110-143 | `--tls --help` is help mode with TLS on, for any spellings |
| ArgsExamples.TlsThenHelpExample | src/args.rs:110-143 | `--tls --help` is help mode with TLS on |
| ArgsExamples.TlsAndTorExample | src/args.rs:321-322 | `--tls --tor` fails with the tor-and-tls error |
| ArgsExamples.TlsAndNoTlsExample | src/args.rs:324-325 | `--tls --no-tls` fails with the both-tls error |
| ArgsExamples.ShortTlsAndNoTlsExample | src/args.rs:326-327 | `-s -S` fails with the both-tls error |
| ArgsExamples.TorWithoutTlsExample | src/args.rs:329-331 | `--tor --no-tls` has Tor on and TLS off |
| ArgsExamples.MixAndMatchExample | src/args.rs:335-338 | `-r -s -C` is raw mode with TLS on |
| ArgsExamples.ConfigWithoutFileExample | src/args.rs:343-344 | `-c` alone needs a config file |
| ArgsExamples.NoConfigThenConfigExample | src/args.rs:346-347 | `-C -c file.conf` mixes config sources and is rejected although `file.conf` does not exist |
| ArgsExamples.ConfigThenNoConfigExample | src/args.rs:52-56 | `-c a.conf -C` loads `a.conf`, then rejects the mix |
| ArgsExamples.ConfigFileMissingExample | src/args.rs:349-353 | `-c file.conf` reports the missing file |
| ArgsExamples.ConfigAssignFileMissingExample | src/args.rs:355-359 | `--config=file.conf` reports the missing file |
| ArgsExamples.LongConfigFileMissingExample | src/args.rs:361-365 | `--config file.conf` reports the missing file |
| ArgsExamples.NoConfigExample | src/args.rs:367-368 | `-C` is accepted with TLS off |
| ArgsExamples.LocalThenMissingConfigExample | src/args.rs:58-69 | `-l -c file.conf` reports the missing file |
| ArgsExamples.LateDanglingConfigExample | src/args.rs:58-69 | `-c a.conf -c` needs a config file even when `a.conf` loads |
| ArgsExamples.LateNoTls | src/args.rs:144-147 | `--no-tls` after `--tls` and a URL is rejected with "can't set both --tls and --no-tls", for any spellings and URL |
| ArgsExamples.LateNoTlsExample | src/args.rs:144-147 | `--tls sdf.org --no-tls` is rejected with that error |
| ArgsExamples.LateUnknownFlag | src/args.rs:222-224 | an unknown flag after a URL and `--local` is rejected by name, for any spellings |
| ArgsExamples.LateUnknownFlagExample | src/args.rs:222-224 | `sdf.org -l -z` is rejected as "unknown flag: -z" |
| GopherType.ToChar | src/gopher/type.rs:92-119 | every item type encodes as one of the 24 code characters |
| GopherType.From | src/gopher/type.rs:122-150 | decoding fails exactly on characters outside the code table; a decoded type encodes back to the same character |
| GopherType.Display | src/gopher/type.rs:153-157 | an item type displays as one character, which decodes back to that type |
| GopherType.ToCharRoundTrip | src/gopher/type.rs:92-150 | decoding the code of a type gives the type back |
| GopherType.FromRoundTrip | src/gopher/type.rs:92-150 | encoding a decoded code character gives the character back |
| GopherType.ToCharInjective | src/gopher/type.rs:92-119 | no two item types share a code |
| GopherType.CodesAreExactlyTheEncodings | src/gopher/type.rs:92-150 | a character is in the code table exactly when some type encodes to it |
| GopherType.IsInfo | src/gopher/type.rs:35-37 | info lines are exactly the items coded `i` |
| GopherType.IsText | src/gopher/type.rs:40-42 | text items are exactly the items coded `0` or `X` |
| GopherType.IsHtml | src/gopher/type.rs:45-47 | HTML links are exactly the items coded `h` |
| GopherType.IsTelnet | src/gopher/type.rs:50-52 | telnet links are exactly the items coded `8` |
| GopherType.IsLink | src/gopher/type.rs:55-57 | links are exactly the items not coded `i` |
| GopherType.IsDownload | src/gopher/type.rs:60-76 | downloads are exactly the items coded `4 5 6 9 g I p s ; c d x` |
| GopherType.IsMedia | src/gopher/type.rs:79-81 | media are exactly the items coded `s` or `;` |
| GopherType.IsSupported | src/gopher/type.rs:84-89 | exactly the items coded `2 + T M` are unsupported |
| GopherType.LinkIffNotInfo | src/gopher/type.rs:35-81 | an item is a link exactly when decoding `i` does not give it, and an info line is none of text, HTML, telnet, download or media |
| GopherType.MediaIsDownload | src/gopher/type.rs:60-89 | sound and video items are downloads, links and supported |
| GopherType.SupportedAndTextKinds | src/gopher/type.rs:40-89 | exactly four kinds are unsupported. Exactly the `0` and `X` codes render as text. Downloads are supported, non-text links |

The step lemmas of `FlagPassCases` (one iteration of pass 2 for one flag in
one state, for example `TlsStep` or `MediaClash`) are the building blocks of
the `ParseCases` lemmas. They restate `ApplyFlag` one arm at a time, so they
have no row of their own.

## Order-dependent and surprising behaviour of the parser

In each of these cases the outcome follows from the order in which
`src/args.rs` makes its checks rather than from any rule about the flags
themselves. The model keeps that order.

- The result depends on the order of flags that are not each other's
  opposites. `--autoplay --no-media` is accepted, but `--no-media --autoplay`
  is rejected (`ParseCases.AutoplayThenNoMedia`, `ParseCases.NoMediaThenAutoplay`).
- Pass 1 does not see every `--no-config` in the list. `-c` takes the next
  token as its file, whatever it is, so `-c -C` loads a file named `-C`
  and is not a mix of config sources (`ParseProperties.ConfigTakesNoConfigAsFile`).
- A `--no-config` before a config token makes the mix the error, whether or
  not the file exists: `-C -c missing.conf` is rejected as a mix, because
  pass 1 rejects the config token before reading its file
  (`ArgsProperties.ScanMixesAfterNoConfig`).
- Without TLS support, `--tls --no-tls` fails with the missing-feature error,
  not the conflict error. The same holds for Tor (`ParseCases.TlsUnsupported`,
  `ParseCases.TorUnsupported`).
- Mode flags are last-wins. `--raw` and `--print` both assign the mode, so
  the later one decides (`ParseCases.PrintThenRaw`, `ParseCases.RawThenPrint`).
  They are not exclusive.
- `--raw` checks the length of the whole list, not whether a URL follows.
  `--raw --no-config` is therefore accepted (`ParseCases.RawCountsEveryArgument`).
- `--tls` assigns `cfg.tls` before it checks the feature (lines 138-142).
  The parse then fails, so the assignment is never seen. The model checks
  the feature first; the outcome is the same.
- Pass 1 lets only `-c` take the next token, while pass 2 also lets `-w`,
  `-m` and `-e` take theirs. So `-m -c` fails in pass 1 for lack of a
  config file, although pass 2 would read `-c` as the media program
  (`ParseProperties.MediaValueSeenByConfigPass`).
- The non-terminal mode is called `NoTTY`, as in the code.

## Left out

- Reading and parsing config files, `config::exists` and `config::load`:
  these are the `Env` fields `loadFile`, `configExists` and `loadDefault`,
  which return a configuration or an error message.
- The encoding catalog (`Encoding::from_str`) is the `Env` function
  `encodingFromStr`. Parsing the `--wrap` column (`str::parse` into the
  column field) is the `Env` function `parseColumn`.
- The terminal probe `atty::is`, the compiled features and `cfg!(test)` are
  the `Env` booleans `stdoutIsTty`, `tlsFeature`/`torFeature` and `testBuild`.
- Only the `Config` fields the parser writes are modelled one by one. The
  display settings that only a config file sets are represented by the one
  field `wide`, which the parser passes through.
- `ArgError` holds only a message in the code. The model gives each error
  its own constructor, and `ArgError.Message` renders the code's text.
- Args.MessageKeepsCause: states how messages carry their cause or token,
  not that the fixed messages differ from each other, because comparing
  those string literals pairwise is beyond what the solver does cheaply.
- The `need a config file` branch of `--config=FILE` (lines 83-85) is
  modelled, but it is unreachable: `ArgsProperties.ConfigAssignHasFile`.
- `src/main.rs` is not part of this model. It does not call `args::parse`:
  it reads host, port and selector by position and answers `--help`, `-h`
  and `-help` itself. The rest of the client is not modelled either.
- GopherType.Display: models the text `Display` writes (the code character)
  as a one-character string. The formatter machinery is left out.
