/**
  The pattern `https?://[^\s]+` that the share handler searches shared text
  for, written out as a scanner over character indices.

  `IsMatch` and `LeftmostLongest` are the reference definition: which
  substrings the pattern matches, and which of them a leftmost search with a
  greedy `+` reports. `FindSpan` and `FindUrl` are the scanner; the lemmas at
  the end prove that the scanner reports exactly that match, and nothing
  when there is no match.
*/
module UrlScan {
  import opened Optional

  const Http: string := "http://"
  const Https: string := "https://"

  /** `s` begins with `p`, compared character by character (case-sensitive). */
  predicate StartsWith(s: string, p: string) {
    |p| <= |s| && s[..|p|] == p
  }

  /** The class `\s` of the Java regex engine without the Unicode flag:
      space, tab, line feed, vertical tab, form feed, carriage return. */
  predicate IsSpace(c: char) {
    c == ' ' || c == '\t' || c == '\n' || c == '\r' || c as int == 0x0B || c as int == 0x0C
  }

  predicate NoSpace(t: string) {
    forall k :: 0 <= k < |t| ==> !IsSpace(t[k])
  }

  /** `t` as a whole is a word of `https?://[^\s]+`. */
  predicate UrlShaped(t: string) {
    (StartsWith(t, Http) && |t| > |Http| && NoSpace(t[|Http|..])) ||
    (StartsWith(t, Https) && |t| > |Https| && NoSpace(t[|Https|..]))
  }

  /** `s[i..j]` is a match of the pattern. */
  predicate IsMatch(s: string, i: int, j: int) {
    0 <= i <= j <= |s| && UrlShaped(s[i..j])
  }

  /** `s[i..j]` is the match a leftmost search with a greedy `+` reports:
      no match starts before `i`, and no match starting at `i` is longer. */
  ghost predicate LeftmostLongest(s: string, i: int, j: int) {
    IsMatch(s, i, j) &&
    (forall i', j' | IsMatch(s, i', j') :: i <= i') &&
    (forall j' | IsMatch(s, i, j') :: j' <= j)
  }

  /** How many characters `https?://` consumes at index `i`; 0 when it does not fit. */
  function SchemeLength(s: string, i: nat): (n: nat)
    requires i <= |s|
    ensures n == 0 || n == |Http| || n == |Https|
    ensures n == |Https| ==> StartsWith(s[i..], Https)
    ensures n == |Http| ==> StartsWith(s[i..], Http)
    ensures n == 0 ==> !StartsWith(s[i..], Https) && !StartsWith(s[i..], Http)
  {
    if StartsWith(s[i..], Https) then |Https|
    else if StartsWith(s[i..], Http) then |Http|
    else 0
  }

  /** A match can start at `i`: the scheme fits and is followed by at least one
      character that is not white space. */
  predicate MatchesAt(s: string, i: nat) {
    i <= |s| && var n := SchemeLength(s, i);
    n > 0 && i + n < |s| && !IsSpace(s[i + n])
  }

  /** The end of the run of non-space characters that begins at `j`: the greedy
      `[^\s]+` stops at the next white space or at the end of the text. */
  function RunEnd(s: string, j: nat): (e: nat)
    requires j <= |s|
    ensures j <= e <= |s|
    ensures e == |s| || IsSpace(s[e])
    ensures forall k :: j <= k < e ==> !IsSpace(s[k])
    decreases |s| - j
  {
    if j == |s| || IsSpace(s[j]) then j else RunEnd(s, j + 1)
  }

  /** The first index at or after `i` where a match can start. */
  function FirstStart(s: string, i: nat): (r: Option<nat>)
    requires i <= |s|
    ensures r.Some? ==> i <= r.value < |s| && MatchesAt(s, r.value)
    ensures forall k :: i <= k && (r.Some? ==> k < r.value) ==> !MatchesAt(s, k)
    decreases |s| - i
  {
    if i == |s| then None
    else if MatchesAt(s, i) then Some(i)
    else FirstStart(s, i + 1)
  }

  /** The bounds `(i, j)` of the match `Regex("https?://[^\\s]+").find` reports, if any. */
  function FindSpan(s: string): (r: Option<(nat, nat)>)
    ensures r.Some? ==> r.value.0 <= r.value.1 <= |s|
  {
    match FirstStart(s, 0)
    case None => None
    case Some(i) => Some((i, RunEnd(s, i + SchemeLength(s, i))))
  }

  /** The text of the first URL in `s`, if there is one. */
  function FindUrl(s: string): (r: Option<string>)
    ensures r.Some? ==> exists i, j :: 0 <= i <= j <= |s| && r.value == s[i..j]
  {
    match FindSpan(s)
    case None => None
    case Some((i, j)) => Some(s[i..j])
  }

  /** A prefix of a slice `s[i..j]` is a prefix of the suffix `s[i..]`. */
  lemma SlicePrefix(s: string, i: int, j: int, p: string)
    requires 0 <= i <= j <= |s| && StartsWith(s[i..j], p)
    ensures StartsWith(s[i..], p)
  {
    forall k | 0 <= k < |p| ensures s[i..][..|p|][k] == p[k] {
      assert s[i..][..|p|][k] == s[i + k] == s[i..j][..|p|][k];
    }
  }

  /** The two schemes exclude each other at one index: the fifth character is
      `:` after `http` and `s` after `https`. */
  lemma SchemeLengthOf(s: string, i: nat, p: string)
    requires i <= |s| && (p == Http || p == Https) && StartsWith(s[i..], p)
    ensures SchemeLength(s, i) == |p|
  {
    assert s[i..][..|p|][4] == s[i + 4];
    if p == Http {
      assert s[i + 4] == ':';
      assert !StartsWith(s[i..], Https) by {
        assert |s[i..]| < |Https| || s[i..][..|Https|][4] == s[i + 4];
      }
    }
  }

  /** Every match starts where `MatchesAt` holds, and ends no later than the
      run of non-space characters after the scheme. */
  lemma MatchStartsThere(s: string, i: int, j: int)
    requires IsMatch(s, i, j)
    ensures MatchesAt(s, i) && j <= RunEnd(s, i + SchemeLength(s, i))
  {
    var t := s[i..j];
    var p := if StartsWith(t, Http) then Http else Https;
    var n := |p|;
    assert StartsWith(t, p) && n < |t| && NoSpace(t[n..]);
    SlicePrefix(s, i, j, p);
    SchemeLengthOf(s, i, p);
    forall k | i + n <= k < j ensures !IsSpace(s[k]) {
      assert s[k] == t[n..][k - i - n];
    }
  }

  /** Where `MatchesAt` holds, the scheme and the run of non-space characters
      after it form a match. */
  lemma RunIsMatch(s: string, i: nat)
    requires MatchesAt(s, i)
    ensures IsMatch(s, i, RunEnd(s, i + SchemeLength(s, i)))
  {
    var n := SchemeLength(s, i);
    var e := RunEnd(s, i + n);
    var t := s[i..e];
    assert t[..n] == s[i..][..n];
    forall k | 0 <= k < |t[n..]| ensures !IsSpace(t[n..][k]) {
      assert t[n..][k] == s[i + n + k];
    }
  }

  /** When the scanner finds a span, it is the leftmost-longest match; the
      match ends at white space or at the end of the text. */
  lemma {:induction false} FindSpanIsLeftmostLongest(s: string)
    requires FindSpan(s).Some?
    ensures LeftmostLongest(s, FindSpan(s).value.0, FindSpan(s).value.1)
    ensures FindSpan(s).value.1 == |s| || IsSpace(s[FindSpan(s).value.1])
  {
    var i := FirstStart(s, 0).value;
    var j := FindSpan(s).value.1;
    RunIsMatch(s, i);
    forall i', j' | IsMatch(s, i', j') ensures i <= i' {
      MatchStartsThere(s, i', j');
    }
    forall j' | IsMatch(s, i, j') ensures j' <= j {
      MatchStartsThere(s, i, j');
    }
  }

  /** The scanner reports nothing exactly when the pattern matches nowhere. */
  lemma FindUrlNoneIffNoMatch(s: string)
    ensures FindUrl(s) == None <==> forall i, j :: !IsMatch(s, i, j)
  {
    if FindSpan(s).Some? {
      FindSpanIsLeftmostLongest(s);
    } else {
      forall i, j | IsMatch(s, i, j) ensures false {
        MatchStartsThere(s, i, j);
      }
    }
  }

  /** Whatever the scanner reports is a leftmost-longest match. */
  lemma FoundIsLeftmostLongest(s: string)
    requires FindUrl(s).Some?
    ensures exists i, j :: LeftmostLongest(s, i, j) && FindUrl(s) == Some(s[i..j])
  {
    FindSpanIsLeftmostLongest(s);
    var (i, j) := FindSpan(s).value;
    assert LeftmostLongest(s, i, j) && FindUrl(s) == Some(s[i..j]);
  }

  /** The leftmost-longest match, wherever it is, is what the scanner reports. */
  lemma {:induction false} LeftmostLongestIsFound(s: string, i: int, j: int)
    requires LeftmostLongest(s, i, j)
    ensures FindUrl(s) == Some(s[i..j])
  {
    FindUrlNoneIffNoMatch(s);
    FindSpanIsLeftmostLongest(s);
  }

  /** A reported URL begins with `http://` or `https://` and holds no white space. */
  lemma FoundUrlShape(s: string)
    requires FindUrl(s).Some?
    ensures var u := FindUrl(s).value;
      (StartsWith(u, Http) || StartsWith(u, Https)) && NoSpace(u)
  {
    FindSpanIsLeftmostLongest(s);
    var (i, j) := FindSpan(s).value;
    var u := s[i..j];
    var p := if StartsWith(u, Https) && |u| > |Https| && NoSpace(u[|Https|..]) then Https else Http;
    assert StartsWith(u, p) && NoSpace(u[|p|..]);
    forall k | 0 <= k < |u| ensures !IsSpace(u[k]) {
      if k >= |p| {
        assert u[k] == u[|p|..][k - |p|];
      } else {
        assert u[k] == u[..|p|][k] == p[k];
      }
    }
  }

  /** No match can start at a character other than `h`, nor at an `h` that
      is not followed by `t`. */
  lemma NoStartAt(s: string, i: nat)
    requires i < |s| && (s[i] != 'h' || (i + 1 < |s| && s[i + 1] != 't'))
    ensures !MatchesAt(s, i)
  {
  }

  /** The search passes over indices where no match can start. */
  lemma {:induction false} SkipTo(s: string, i: nat, k: nat)
    requires i <= k <= |s|
    requires forall m :: i <= m < k ==> !MatchesAt(s, m)
    ensures FirstStart(s, i) == FirstStart(s, k)
    decreases k - i
  {
    if i < k {
      SkipTo(s, i + 1, k);
    }
  }
}
