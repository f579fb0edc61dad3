/**
  Worked shares: a link inside a sentence, a bare link with a subject, an
  upper-case scheme, and a share without a link after one with a link.
  Each is proved from the scanner's definition, a few characters at a time.
*/
module ShareExamples {
  import opened Optional
  import opened UrlScan
  import opened ShareIntake

  const Sentence: string := "check this out https://x.co/a see"

  /** In the sentence, no match can start before the `h` of `https` at index 15. */
  lemma NoMatchBeforeLink()
    ensures forall m :: 0 <= m < 15 ==> !MatchesAt(Sentence, m)
  {
    forall m | 0 <= m < 15 ensures !MatchesAt(Sentence, m) {
      NoStartAt(Sentence, m);
    }
  }

  /** At index 15 `https://` fits, and the link runs up to the space at index 29. */
  lemma LinkAtFifteen()
    ensures MatchesAt(Sentence, 15) && SchemeLength(Sentence, 15) == |Https|
    ensures RunEnd(Sentence, 15 + |Https|) == 29
  {
    assert Sentence[15..][..|Https|] == Https;
  }

  lemma {:induction false} SentenceSearchSkips(s: string)
    requires s == Sentence
    ensures FirstStart(s, 0) == FirstStart(s, 15)
  {
    NoMatchBeforeLink();
    SkipTo(s, 0, 15);
  }

  lemma {:induction false} SentenceSearchStops(s: string)
    requires s == Sentence
    ensures FirstStart(s, 15) == Some(15) && SchemeLength(s, 15) == |Https| && RunEnd(s, 23) == 29
  {
    LinkAtFifteen();
  }

  lemma {:induction false} SentenceSpan(s: string)
    requires s == Sentence
    ensures FindSpan(s) == Some((15, 29))
  {
    SentenceSearchSkips(s);
    SentenceSearchStops(s);
  }

  /** The sentence does not start with a scheme; characters 15 to 29 are the link. */
  lemma SentenceText(s: string)
    requires s == Sentence
    ensures !IsBareUrl(s) && s[15..29] == "https://x.co/a"
  {
    assert s[..|Http|][0] == 'c' && s[..|Https|][0] == 'c';
    assert s[15..29] == Sentence[15..29] == "https://x.co/a";
  }

  /** The link is found inside the sentence, up to the next space. */
  lemma {:induction false} SentenceLink(s: string)
    requires s == Sentence
    ensures FindUrl(s) == Some("https://x.co/a")
  {
    SentenceSpan(s);
    SentenceText(s);
  }

  /** Sharing the sentence keeps it whole as the text and stores the link. */
  lemma {:induction false} SentenceShare(prev: SharedData, s: string)
    requires s == Sentence
    ensures Received(prev, s, None) == SharedData(Some(s), Some("https://x.co/a"))
  {
    SentenceLink(s);
    SentenceText(s);
  }

  /** A bare link with a subject: the link is the URL, the subject the text. */
  lemma BareLinkWithSubject(prev: SharedData)
    ensures Received(prev, "https://example.com", Some("My Link"))
      == SharedData(Some("My Link"), Some("https://example.com"))
  {
    assert StartsWith("https://example.com", Https);
  }

  /** Scheme matching is case-sensitive: `HTTPS://` is not found as a link. */
  lemma {:induction false} UpperCaseSchemeNotFound(s: string)
    requires s == "HTTPS://x.co"
    ensures FindUrl(s) == None
  {
    forall m | 0 <= m < |s| ensures !MatchesAt(s, m) {
      NoStartAt(s, m);
    }
    SkipTo(s, 0, |s|);
  }

  /** An upper-case link is shared as plain text and leaves the URL field as it was. */
  lemma {:induction false} UpperCaseSchemeShare(prev: SharedData, s: string)
    requires s == "HTTPS://x.co"
    ensures Received(prev, s, None) == SharedData(Some(s), prev.url)
  {
    UpperCaseSchemeNotFound(s);
    assert !IsBareUrl(s) by {
      assert s[..|Http|] != Http && s[..|Https|] != Https;
    }
  }

  /** A share without a link after one with a link: the text is replaced,
      the earlier link stays. */
  lemma StaleUrlSurvives()
    ensures Received(SharedData(None, Some("https://a.b")), "hi", None)
      == SharedData(Some("hi"), Some("https://a.b"))
  {
    assert !MatchesAt("hi", 0);
    assert !MatchesAt("hi", 1);
  }
}
