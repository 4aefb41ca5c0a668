/** The few string operations the argument parser relies on: prefix tests,
    Rust's `str::trim` (which strips Unicode white space from both ends) and
    `splitn(2, c).nth(1)` (the text after the first separator). */
module Strings {
  import opened Results

  /** `s` begins with `prefix`, character by character. */
  function StartsWith(s: string, prefix: string): (b: bool)
    ensures b <==> |prefix| <= |s| && forall k :: 0 <= k < |prefix| ==> s[k] == prefix[k]
  {
    |prefix| <= |s| && s[..|prefix|] == prefix
  }

  /** The characters with the Unicode White_Space property, which Rust's
      `char::is_whitespace` accepts. */
  const WhiteSpace: set<char> :=
    {'\t', '\n', '\U{000B}', '\U{000C}', '\r', ' ', '\U{0085}', '\U{00A0}', '\U{1680}',
     '\U{2000}', '\U{2001}', '\U{2002}', '\U{2003}', '\U{2004}', '\U{2005}', '\U{2006}',
     '\U{2007}', '\U{2008}', '\U{2009}', '\U{200A}', '\U{2028}', '\U{2029}', '\U{202F}',
     '\U{205F}', '\U{3000}'}

  predicate IsWhitespace(c: char) {
    c in WhiteSpace
  }

  /** Every character of `s` satisfies `ws`. */
  predicate All(s: string, ws: char -> bool) {
    forall k :: 0 <= k < |s| ==> ws(s[k])
  }

  /** `s` neither starts nor ends with a character satisfying `ws`. */
  predicate TrimmedBy(s: string, ws: char -> bool) {
    |s| == 0 || (!ws(s[0]) && !ws(s[|s| - 1]))
  }

  /** Cuts the characters satisfying `ws` off both ends of `s`. */
  function TrimBy(s: string, ws: char -> bool): (r: string)
    ensures TrimmedBy(r, ws)
    ensures |r| <= |s|
    decreases |s|
  {
    if |s| > 0 && ws(s[0]) then TrimBy(s[1..], ws)
    else if |s| > 0 && ws(s[|s| - 1]) then TrimBy(s[..|s| - 1], ws)
    else s
  }

  /** Where `TrimBy` cuts `s`: the result is the slice `s[a..b]`, and every
      character before `a` and from `b` on satisfies `ws`. */
  lemma {:induction false} TrimByBounds(s: string, ws: char -> bool) returns (a: nat, b: nat)
    decreases |s|
    ensures a <= b <= |s| && TrimBy(s, ws) == s[a..b]
    ensures forall k :: 0 <= k < a ==> ws(s[k])
    ensures forall k :: b <= k < |s| ==> ws(s[k])
  {
    if |s| > 0 && ws(s[0]) {
      var t := s[1..];
      var a', b' := TrimByBounds(t, ws);
      a, b := a' + 1, b' + 1;
      assert t[a'..b'] == s[a..b];
      forall k | 0 <= k < a ensures ws(s[k]) {
        if k > 0 { assert s[k] == t[k - 1]; }
      }
      forall k | b <= k < |s| ensures ws(s[k]) {
        assert s[k] == t[k - 1];
      }
    } else if |s| > 0 && ws(s[|s| - 1]) {
      var t := s[..|s| - 1];
      a, b := TrimByBounds(t, ws);
      assert t[a..b] == s[a..b];
      forall k | b <= k < |s| ensures ws(s[k]) {
        if k < |t| { assert s[k] == t[k]; }
      }
    } else {
      a, b := 0, |s|;
      assert s[0..|s|] == s;
    }
  }

  /** Rust's `str::trim`: cuts white space off both ends. */
  function Trim(s: string): (r: string)
    ensures |r| <= |s|
    ensures |r| == 0 || (!IsWhitespace(r[0]) && !IsWhitespace(r[|r| - 1]))
  {
    TrimBy(s, IsWhitespace)
  }

  /** What `Trim` removes is white space, from the two ends only. */
  lemma TrimCutsWhitespace(s: string)
    ensures exists a, b :: 0 <= a <= b <= |s| && Trim(s) == s[a..b]
                        && All(s[..a], IsWhitespace) && All(s[b..], IsWhitespace)
  {
    var a, b := TrimByBounds(s, IsWhitespace);
    assert All(s[..a], IsWhitespace) && All(s[b..], IsWhitespace);
  }

  /** A string with no white space at either end is its own trim. */
  lemma TrimmedIsFixed(s: string)
    requires |s| == 0 || (!IsWhitespace(s[0]) && !IsWhitespace(s[|s| - 1]))
    ensures Trim(s) == s
  {
  }

  /** White space after a word is trimmed away. */
  lemma {:induction false} TrimDropsTrailing(s: string, t: string)
    requires |s| > 0 && !IsWhitespace(s[0]) && !IsWhitespace(s[|s| - 1])
    requires All(t, IsWhitespace)
    ensures Trim(s + t) == s
    decreases |t|
  {
    if |t| == 0 {
      assert s + t == s;
      TrimmedIsFixed(s);
    } else {
      var t' := t[..|t| - 1];
      assert (s + t)[..|s + t| - 1] == s + t';
      assert (s + t)[0] == s[0];
      TrimDropsTrailing(s, t');
    }
  }

  /** Trimming is idempotent. */
  lemma TrimIdempotent(s: string)
    ensures Trim(Trim(s)) == Trim(s)
  {
    TrimmedIsFixed(Trim(s));
  }

  /** The position of the first `c` in `s`. */
  function IndexOf(s: string, c: char): (k: nat)
    requires c in s
    ensures k < |s| && s[k] == c && c !in s[..k]
  {
    if s[0] == c then 0
    else
      var k' := IndexOf(s[1..], c);
      assert s[..k' + 1] == [s[0]] + s[1..][..k'];
      k' + 1
  }

  /** The text after the first occurrence of `c`, or `None` when `c` does not
      occur (Rust's `s.splitn(2, c).nth(1)`). */
  function AfterFirst(s: string, c: char): (r: Option<string>)
    ensures r.None? <==> c !in s
    ensures r.Some? ==> r.value == s[IndexOf(s, c) + 1..]
  {
    if |s| == 0 then None
    else if s[0] == c then Some(s[1..])
    else
      match AfterFirst(s[1..], c)
      case None => None
      case Some(rest) =>
        assert s[1..][IndexOf(s[1..], c) + 1..] == s[IndexOf(s, c) + 1..];
        Some(rest)
  }

}
