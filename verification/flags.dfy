/** The command-line flags the parser recognises. Every flag has three
    spellings: a one-letter short form `-x` and a long name written with two
    dashes or with one (`--raw`, `-raw`). */
module Flags {
  import opened Results
  import opened Strings

  datatype Flag =
    | NoConfigFlag | ConfigFlag | VersionFlag | HelpFlag | RawFlag | PrintFlag
    | LocalFlag | TlsFlag | NoTlsFlag | TorFlag | NoTorFlag | WrapFlag
    | MediaFlag | NoMediaFlag | AutoplayFlag | NoAutoplayFlag | EncodingFlag

  function ShortName(f: Flag): char {
    match f
    case NoConfigFlag => 'C'
    case ConfigFlag => 'c'
    case VersionFlag => 'v'
    case HelpFlag => 'h'
    case RawFlag => 'r'
    case PrintFlag => 'p'
    case LocalFlag => 'l'
    case TlsFlag => 's'
    case NoTlsFlag => 'S'
    case TorFlag => 'o'
    case NoTorFlag => 'O'
    case WrapFlag => 'w'
    case MediaFlag => 'm'
    case NoMediaFlag => 'M'
    case AutoplayFlag => 'a'
    case NoAutoplayFlag => 'A'
    case EncodingFlag => 'e'
  }

  function LongName(f: Flag): string {
    match f
    case NoConfigFlag => "no-config"
    case ConfigFlag => "config"
    case VersionFlag => "version"
    case HelpFlag => "help"
    case RawFlag => "raw"
    case PrintFlag => "print"
    case LocalFlag => "local"
    case TlsFlag => "tls"
    case NoTlsFlag => "no-tls"
    case TorFlag => "tor"
    case NoTorFlag => "no-tor"
    case WrapFlag => "wrap"
    case MediaFlag => "media"
    case NoMediaFlag => "no-media"
    case AutoplayFlag => "autoplay"
    case NoAutoplayFlag => "no-autoplay"
    case EncodingFlag => "encoding"
  }

  /** `a` is one of the three spellings of `f`. */
  predicate Spells(a: string, f: Flag) {
    a == ['-', ShortName(f)] || a == "--" + LongName(f) || a == "-" + LongName(f)
  }

  /** The flag whose short name is `c`, if any. */
  function ShortFlag(c: char): Option<Flag> {
    match c
    case 'C' => Some(NoConfigFlag)
    case 'c' => Some(ConfigFlag)
    case 'v' => Some(VersionFlag)
    case 'h' => Some(HelpFlag)
    case 'r' => Some(RawFlag)
    case 'p' => Some(PrintFlag)
    case 'l' => Some(LocalFlag)
    case 's' => Some(TlsFlag)
    case 'S' => Some(NoTlsFlag)
    case 'o' => Some(TorFlag)
    case 'O' => Some(NoTorFlag)
    case 'w' => Some(WrapFlag)
    case 'm' => Some(MediaFlag)
    case 'M' => Some(NoMediaFlag)
    case 'a' => Some(AutoplayFlag)
    case 'A' => Some(NoAutoplayFlag)
    case 'e' => Some(EncodingFlag)
    case _ => None
  }

  /** The flag whose long name is `s`, if any. */
  function LongFlag(s: string): Option<Flag> {
    if s == "no-config" then Some(NoConfigFlag)
    else if s == "config" then Some(ConfigFlag)
    else if s == "version" then Some(VersionFlag)
    else if s == "help" then Some(HelpFlag)
    else if s == "raw" then Some(RawFlag)
    else if s == "print" then Some(PrintFlag)
    else if s == "local" then Some(LocalFlag)
    else if s == "tls" then Some(TlsFlag)
    else if s == "no-tls" then Some(NoTlsFlag)
    else if s == "tor" then Some(TorFlag)
    else if s == "no-tor" then Some(NoTorFlag)
    else if s == "wrap" then Some(WrapFlag)
    else if s == "media" then Some(MediaFlag)
    else if s == "no-media" then Some(NoMediaFlag)
    else if s == "autoplay" then Some(AutoplayFlag)
    else if s == "no-autoplay" then Some(NoAutoplayFlag)
    else if s == "encoding" then Some(EncodingFlag)
    else None
  }

  /** `ShortFlag` inverts `ShortName`. */
  lemma ShortFlagInverts(c: char)
    ensures forall f :: ShortFlag(c) == Some(f) <==> ShortName(f) == c
  {
  }

  /** `LongFlag` inverts `LongName`. */
  lemma LongFlagInverts(s: string)
    ensures forall f :: LongFlag(s) == Some(f) <==> LongName(f) == s
  {
  }

  /** Long names are at least three characters and never start with `-`, so
      a one-dash long spelling cannot be mistaken for a short or a two-dash one. */
  lemma LongNameShape(f: Flag)
    ensures |LongName(f)| >= 3 && LongName(f)[0] != '-'
    ensures '=' !in LongName(f)
  {
  }

  /** The match arms of the parser: a two-character `-x` is looked up by
      its letter, anything longer after `--` or `-` by its long name. */
  function MatchFlag(a: string): Option<Flag> {
    if |a| == 2 && a[0] == '-' then ShortFlag(a[1])
    else if |a| > 2 && a[..2] == "--" then LongFlag(a[2..])
    else if |a| > 1 && a[0] == '-' then LongFlag(a[1..])
    else None
  }

  /** `-x` reaches the arm of the flag with short name `x`. */
  lemma MatchShort(f: Flag)
    ensures MatchFlag(['-', ShortName(f)]) == Some(f)
  {
    ShortFlagInverts(ShortName(f));
  }

  /** `--name` reaches the arm of the flag with long name `name`. */
  lemma MatchLongTwoDashes(f: Flag)
    ensures MatchFlag("--" + LongName(f)) == Some(f)
  {
    var a := "--" + LongName(f);
    LongNameShape(f);
    LongFlagInverts(LongName(f));
    assert a[..2] == "--" && a[2..] == LongName(f);
  }

  /** `-name` reaches the arm of the flag with long name `name`: the name
      does not start with `-`, so this is not the two-dash form. */
  lemma MatchLongOneDash(f: Flag)
    ensures MatchFlag("-" + LongName(f)) == Some(f)
  {
    var a := "-" + LongName(f);
    LongNameShape(f);
    LongFlagInverts(LongName(f));
    assert a[1..] == LongName(f);
    assert a[..2] != "--" by {
      assert a[..2][1] == LongName(f)[0];
    }
  }

  /** Every spelling of a flag reaches that flag's arm. */
  lemma MatchFindsSpelling(a: string, f: Flag)
    requires Spells(a, f)
    ensures MatchFlag(a) == Some(f)
  {
    if a == ['-', ShortName(f)] {
      MatchShort(f);
    } else if a == "--" + LongName(f) {
      MatchLongTwoDashes(f);
    } else {
      MatchLongOneDash(f);
    }
  }

  /** An arm is only reached by a spelling of its flag. */
  lemma MatchOnlySpellings(a: string)
    requires MatchFlag(a).Some?
    ensures Spells(a, MatchFlag(a).value)
  {
    if |a| == 2 && a[0] == '-' {
      ShortFlagInverts(a[1]);
      assert a == ['-', a[1]];
    } else if |a| > 2 && a[..2] == "--" {
      LongFlagInverts(a[2..]);
      assert a == a[..2] + a[2..];
    } else {
      LongFlagInverts(a[1..]);
      assert a == [a[0]] + a[1..];
    }
  }

  /** The flag `a` spells, if any. */
  function Recognize(a: string): Option<Flag> {
    MatchFlag(a)
  }

  /** `Recognize` finds exactly the flag a token spells. */
  lemma RecognizeSpells(a: string)
    ensures forall f :: Recognize(a) == Some(f) <==> Spells(a, f)
  {
    forall f | Spells(a, f) ensures Recognize(a) == Some(f) {
      MatchFindsSpelling(a, f);
    }
    if Recognize(a).Some? {
      MatchOnlySpellings(a);
    }
  }

  /** No string spells two different flags. */
  lemma SpellingsDisjoint(a: string, f: Flag, g: Flag)
    requires Spells(a, f) && Spells(a, g)
    ensures f == g
  {
    RecognizeSpells(a);
  }

  /** How one command-line token is read by the parser's `match`: a known
      flag, the `--config=FILE` / `-config=FILE` form, a bare word (no leading
      `-`, the target URL), or an unknown `-…` flag. */
  datatype Token = Known(flag: Flag) | ConfigAssign | Bare | Unknown

  predicate IsConfigAssign(a: string) {
    StartsWith(a, "--config=") || StartsWith(a, "-config=")
  }

  function Classify(a: string): Token
  {
    match Recognize(a)
    case Some(f) => Known(f)
    case None =>
      if IsConfigAssign(a) then ConfigAssign
      else if StartsWith(a, "-") then Unknown
      else Bare
  }

  /** The classification agrees with the spellings: a known flag is read
      exactly when the token spells it, bare words are exactly the tokens
      without a leading `-`, and unknown flags spell no flag. */
  lemma ClassifySpells(a: string)
    ensures forall f :: Classify(a) == Known(f) <==> Spells(a, f)
    ensures Classify(a) == ConfigAssign ==> IsConfigAssign(a)
    ensures Classify(a) == Bare <==> !StartsWith(a, "-")
    ensures Classify(a) == Unknown ==> StartsWith(a, "-") && !IsConfigAssign(a) && forall f :: !Spells(a, f)
  {
    RecognizeSpells(a);
  }

  /** The flags that consume the following token as their value in the
      flag-application pass. */
  predicate TakesValue(f: Flag) {
    f == ConfigFlag || f == WrapFlag || f == MediaFlag || f == EncodingFlag
  }
}
