/**
 * What `CourtListener.search` promises, proved about the functions that
 * `CourtListener.Search` is shown equal to.
 */
module CourtListenerProperties {
  import opened Wrappers
  import opened JsonValues
  import opened Strings
  import opened CourtListener

  // ---------------------------------------------------------------------------
  // Error messages
  // ---------------------------------------------------------------------------

  /** The message for a refused statement names the prohibited terms. */
  lemma ProhibitedMessageTag(found: seq<string>)
    ensures Contains(ProhibitedMessage(found), "prohibited terms")
  {
    ContainsInside("Search statement contains ", "prohibited terms", ": {" + Join(Quoted(found), ", ") + "}");
  }

  /** A search reply with a status other than 200 becomes an error naming the API. */
  lemma ApiErrorTag(status: int, text: string)
    ensures Contains(FetchError(ApiErrorMessage(status, text)), "CourtListener API error")
  {
    ContainsInside("Failed to fetch results from CourtListener: ", "CourtListener API error",
                   " " + IntToString(status) + ": " + text);
  }

  /** A body without "results" becomes an error saying so. */
  lemma MissingResultsTag(text: string)
    ensures Contains(FetchError(MissingResultsMessage(text)), "missing 'results'")
  {
    ContainsInside("CourtListener response ", "missing 'results'", ": " + text);
    ContainsSuffix("Failed to fetch results from CourtListener: ", MissingResultsMessage(text), "missing 'results'");
  }

  // ---------------------------------------------------------------------------
  // Prohibited terms
  // ---------------------------------------------------------------------------

  /**
   * A statement with a stoplist word fails before any request is made, and
   * the message names the word.
   */
  lemma ProhibitedTermRejectedBeforeAnyRequest(statement: string, t: string, baseUrl: string, maxResults: int,
                                                api: SearchQuery -> SearchReply, opinions: Value -> OpinionReply,
                                                toText: string -> string)
    requires t in ProhibitedTerms && t in StatementWords(statement)
    ensures var run := SearchSpec(statement, baseUrl, maxResults, api, opinions, toText);
            && run.outcome.Failure? && run.queries == [] && run.lookups == []
            && Contains(run.outcome.error, "prohibited terms")
            && Contains(run.outcome.error, "'" + t + "'")
  {
    var found := ProhibitedFound(statement);
    assert t in found;
    var k :| 0 <= k < |found| && found[k] == t;
    var quoted := Quoted(found);
    assert quoted[k] == "'" + t + "'";
    JoinContains(quoted, ", ", k);
    var joined := Join(quoted, ", ");
    var q := "'" + t + "'";
    ContainsSuffix(": {", joined, q);
    ContainsPrefix(": {" + joined, "}", q);
    ContainsSuffix("prohibited terms", ": {" + joined + "}", q);
    ContainsSuffix("Search statement contains ", "prohibited terms" + (": {" + joined + "}"), q);
    ProhibitedMessageTag(found);
  }

  /** A search request is made exactly when no word of the statement is on the stoplist. */
  lemma RequestMadeIffNoProhibitedWord(statement: string, baseUrl: string, maxResults: int,
                                       api: SearchQuery -> SearchReply, opinions: Value -> OpinionReply,
                                       toText: string -> string)
    ensures SearchSpec(statement, baseUrl, maxResults, api, opinions, toText).queries != []
            <==> forall w :: w in StatementWords(statement) ==> w !in ProhibitedTerms
  {
    var found := ProhibitedFound(statement);
    if found != [] {
      assert found[0] in found;
      assert SearchSpec(statement, baseUrl, maxResults, api, opinions, toText).queries == [];
    } else {
      var bounds := DateRange(statement);
      FetchQueries(statement, bounds, api);
      assert SearchSpec(statement, baseUrl, maxResults, api, opinions, toText).queries == Fetch(statement, bounds, api).queries;
    }
  }

  /** Lower-casing and tokenising both split at a space. */
  lemma StatementWordsSplit(a: string, b: string)
    ensures StatementWords(a + " " + b) == StatementWords(a) + StatementWords(b)
  {
    assert Lower(a + " " + b) == Lower(a) + [' '] + Lower(b);
    TokensSplit(Lower(a), ' ', Lower(b), IsWordChar);
  }

  /** Two statements joined by a space are refused exactly when one of them is. */
  lemma ProhibitedFoundSplit(a: string, b: string)
    ensures forall t :: t in ProhibitedFound(a + " " + b) <==> t in ProhibitedFound(a) || t in ProhibitedFound(b)
  {
    StatementWordsSplit(a, b);
  }

  /** No term found when no term is among the words. */
  lemma {:induction false} NoneFound(terms: seq<string>, words: seq<string>)
    requires forall k :: 0 <= k < |terms| ==> terms[k] !in words
    ensures FoundTerms(terms, words) == []
    decreases |terms|
  {
    if terms != [] {
      NoneFound(terms[1..], words);
    }
  }

  /** Matching is by whole word: a longer word that contains a stoplist term does not trigger the check. */
  lemma WholeWordsOnly()
    ensures ProhibitedFound("lawyer") == []
  {
    assert StatementWords("lawyer") == ["lawyer"] by {
      assert Lower("lawyer") == "lawyer";
      TokensSingle("lawyer", IsWordChar);
    }
    assert "lawyer" !in ProhibitedTerms;
    NoneFound(ProhibitedTerms, ["lawyer"]);
  }

  /** Matching ignores case. */
  lemma CaseIgnored()
    ensures "cases" in ProhibitedFound("Cases")
  {
    assert StatementWords("Cases") == ["cases"] by {
      assert Lower("Cases") == "cases";
      TokensSingle("cases", IsWordChar);
    }
    assert "cases" in ProhibitedTerms;
  }

  /** Every stoplist term is a single `\w+` token. */
  lemma StoplistTermsAreWords(t: string)
    requires t in ProhibitedTerms
    ensures t != [] && AllChars(t, IsWordChar)
  {
  }

  /**
   * A stoplist term written in any ASCII case as a word of its own, between
   * spaces, anywhere in the statement, is found.
   */
  lemma StoplistWordAnywhere(a: string, w: string, b: string, t: string)
    requires t in ProhibitedTerms && Lower(w) == t
    ensures t in ProhibitedFound(a + " " + w + " " + b)
  {
    StoplistTermsAreWords(t);
    WordAnywhere(a, w, b);
  }

  /** A word between spaces is one of the statement's words, lower-cased. */
  lemma WordAnywhere(a: string, w: string, b: string)
    requires Lower(w) != [] && AllChars(Lower(w), IsWordChar)
    ensures Lower(w) in StatementWords(a + " " + w + " " + b)
  {
    TokensSingle(Lower(w), IsWordChar);
    StatementWordsSplit(w, b);
    StatementWordsSplit(a, w + " " + b);
    JoinedBySpaces(a, w, b);
    assert StatementWords(a + " " + w + " " + b) == StatementWords(a) + ([Lower(w)] + StatementWords(b));
  }

  lemma JoinedBySpaces(a: string, w: string, b: string)
    ensures a + " " + w + " " + b == a + " " + (w + " " + b)
  {
  }

  // ---------------------------------------------------------------------------
  // Date bounds
  // ---------------------------------------------------------------------------

  /** "dateFiled:[" cannot overlap itself: a marker at `j` rules out another within its first 11 positions. */
  lemma MarkerDoesNotOverlap(s: string, j: nat, k: nat)
    requires j < k < j + 11 && k + 11 <= |s|
    requires s[j..j + 11] == DateMarker
    ensures s[k..k + 11] != DateMarker
  {
    var d := k - j;
    assert s[k..k + 11][0] == s[j..j + 11][d] == DateMarker[d];
    if d == 8 {
      assert s[k..k + 11][1] == s[j..j + 11][9] == ':';
    } else {
      assert DateMarker[d] != 'd';
    }
  }

  /** When no "dateFiled" starts before the marker at `m`, no marker starts before it either. */
  lemma NoMarkerBefore(s: string, m: nat, j: nat)
    requires m + 11 <= |s| && !Contains(s[..m], "dateFiled") && s[m..m + 11] == DateMarker
    requires j < m
    ensures !(j + 11 <= |s| && s[j..j + 11] == DateMarker)
  {
    if j + 11 <= |s| && s[j..j + 11] == DateMarker {
      if j + 9 <= m {
        assert s[..m][j..j + 9] == s[j..j + 11][..9];
        ContainsAt(s[..m], j, "dateFiled");
      } else {
        MarkerDoesNotOverlap(s, j, m);
        assert false;
      }
    }
  }

  /** A pattern that matches nowhere has no first match. */
  lemma FirstAtAbsent(s: string, at: (string, nat) -> bool)
    requires forall j :: 0 <= j <= |s| ==> !at(s, j)
    ensures FirstAt(s, 0, at) == None
  {
  }

  /** The leftmost match is the first position where the pattern holds. */
  lemma FirstAtIs(s: string, at: (string, nat) -> bool, m: nat)
    requires m <= |s| && at(s, m)
    requires forall j :: 0 <= j < m ==> !at(s, j)
    ensures FirstAt(s, 0, at) == Some(m)
  {
  }

  /** When both patterns first match at `m`, the bounds are the two dates of that marker. */
  lemma DateRangeAt(s: string, m: nat)
    requires Contains(s, "dateFiled")
    requires StartMarkerAt(s, m) && RangeMarkerAt(s, m)
    requires forall j :: 0 <= j < m ==> !StartMarkerAt(s, j) && !RangeMarkerAt(s, j)
    ensures DateRange(s) == Bounds(Some(Slashed(s[m + 11..m + 21])), Some(Slashed(s[m + 25..m + 35])))
  {
    FirstAtIs(s, StartMarkerAt, m);
    FirstAtIs(s, RangeMarkerAt, m);
  }

  /** The range marker placed after `a` matches both patterns at position `|a|`. */
  lemma RangeMarkerMatches(a: string, d1: string, d2: string, b: string)
    requires IsIsoDate(d1) && IsIsoDate(d2)
    ensures var s := a + DateMarker + d1 + " TO " + d2 + "]" + b; var m := |a|;
            && s[..m] == a && StartMarkerAt(s, m) && RangeMarkerAt(s, m)
            && s[m + 11..m + 21] == d1 && s[m + 25..m + 35] == d2
  {
    var s := a + DateMarker + d1 + " TO " + d2 + "]" + b;
    var m := |a|;
    assert s[m..m + 11] == DateMarker && s[m + 11..m + 21] == d1 && s[m + 21..m + 25] == " TO ";
    assert s[m + 25..m + 35] == d2 && s[m + 35] == ']';
    assert s[m + 21..m + 24] == s[m + 21..m + 25][..3];
  }

  /**
   * A well-formed range marker, the first "dateFiled" of the statement,
   * yields both bounds: its two dates with every `-` replaced by `/`.
   */
  lemma DateRangeOfMarker(a: string, d1: string, d2: string, b: string)
    requires !Contains(a, "dateFiled")
    requires IsIsoDate(d1) && IsIsoDate(d2)
    ensures DateRange(a + DateMarker + d1 + " TO " + d2 + "]" + b) == Bounds(Some(Slashed(d1)), Some(Slashed(d2)))
  {
    var s := a + DateMarker + d1 + " TO " + d2 + "]" + b;
    RangeMarkerMatches(a, d1, d2, b);
    MarkerFirst(s, |a|);
    DateRangeAt(s, |a|);
  }

  /** A marker at `m` with no "dateFiled" before it is the first place either pattern can match. */
  lemma MarkerFirst(s: string, m: nat)
    requires m + 11 <= |s| && s[m..m + 11] == DateMarker && !Contains(s[..m], "dateFiled")
    ensures Contains(s, "dateFiled")
    ensures forall j :: 0 <= j < m ==> !StartMarkerAt(s, j) && !RangeMarkerAt(s, j)
  {
    assert s[m..m + 11][..9] == "dateFiled";
    ContainsAt(s, m, "dateFiled");
    forall j | 0 <= j < m
      ensures !StartMarkerAt(s, j) && !RangeMarkerAt(s, j)
    {
      NoMarkerBefore(s, m, j);
    }
  }

  /** The opening marker placed after `a` matches the first pattern at position `|a|`. */
  lemma OpenMarkerMatches(a: string, d1: string, rest: string)
    requires IsIsoDate(d1)
    ensures var s := a + DateMarker + d1 + " TO " + rest; var m := |a|;
            && |s| == m + 25 + |rest| && s[..m] == a && StartMarkerAt(s, m) && s[m + 11..m + 21] == d1
            && s[m..m + 11] == DateMarker && s[m + 21..m + 25] == " TO "
  {
    var s := a + DateMarker + d1 + " TO " + rest;
    var m := |a|;
    assert s[m..m + 11] == DateMarker && s[m + 11..m + 21] == d1 && s[m + 21..m + 25] == " TO ";
    assert s[m + 21..m + 24] == s[m + 21..m + 25][..3];
  }

  /** When only the first pattern matches, first at `m`, only `filed_after` is set. */
  lemma DateRangeStartOnly(s: string, m: nat)
    requires Contains(s, "dateFiled")
    requires StartMarkerAt(s, m) && forall j :: 0 <= j < m ==> !StartMarkerAt(s, j)
    requires forall j :: 0 <= j <= |s| ==> !RangeMarkerAt(s, j)
    ensures DateRange(s) == Bounds(Some(Slashed(s[m + 11..m + 21])), None)
  {
    FirstAtIs(s, StartMarkerAt, m);
    FirstAtAbsent(s, RangeMarkerAt);
  }

  /** `rest` opens with `DATE]`, the end of the second pattern. */
  predicate ClosesRange(rest: string) {
    |rest| >= 11 && IsIsoDate(rest[..10]) && rest[10] == ']'
  }

  /** A date holds only digits and `-`, so no marker starts inside one. */
  lemma IsoDateHasNoD(d: string, k: nat)
    requires IsIsoDate(d) && k < 10
    ensures d[k] != 'd'
  {
    assert k == 0 || k == 1 || k == 2 || k == 3 || k == 4 || k == 5 || k == 6 || k == 7 || k == 8 || k == 9;
  }

  /** No marker starts strictly inside `dateFiled:[DATE TO `. */
  lemma NoMarkerInsideOpening(s: string, m: nat, j: nat)
    requires m + 25 <= |s| && s[m..m + 11] == DateMarker && IsIsoDate(s[m + 11..m + 21]) && s[m + 21..m + 25] == " TO "
    requires m < j < m + 25 && j + 11 <= |s|
    ensures s[j..j + 11] != DateMarker
  {
    if j < m + 11 {
      MarkerDoesNotOverlap(s, m, j);
    } else {
      assert s[j..j + 11][0] == s[j];
      if j < m + 21 {
        assert s[j] == s[m + 11..m + 21][j - m - 11];
        IsoDateHasNoD(s[m + 11..m + 21], j - m - 11);
      } else {
        assert s[j] == s[m + 21..m + 25][j - m - 21];
      }
    }
  }

  /** Whether the second pattern matches is unaffected by what comes before. */
  lemma RangeMarkerShift(x: string, rest: string, j: nat)
    ensures RangeMarkerAt(x + rest, |x| + j) == RangeMarkerAt(rest, j)
  {
    var s := x + rest;
    var i := |x| + j;
    if j + 36 <= |rest| {
      assert s[i..i + 11] == rest[j..j + 11];
      assert s[i + 11..i + 21] == rest[j + 11..j + 21];
      assert s[i + 21..i + 25] == rest[j + 21..j + 25];
      assert s[i + 25..i + 35] == rest[j + 25..j + 35];
      assert s[i + 35] == rest[j + 35];
    }
  }

  /** A range marker at the opening itself needs `rest` to close the range. */
  lemma RangeAtOpening(x: string, rest: string, m: nat)
    requires |x| == m + 25
    ensures RangeMarkerAt(x + rest, m) ==> ClosesRange(rest)
  {
    var s := x + rest;
    if RangeMarkerAt(s, m) {
      assert s[m + 25..m + 35] == rest[..10];
      assert s[m + 35] == rest[10];
    }
  }

  /** From the opening marker on, the second pattern matches nowhere when `rest` neither closes nor holds a range. */
  lemma OpenTailNoRange(a: string, d1: string, rest: string)
    requires IsIsoDate(d1) && !ClosesRange(rest)
    requires forall j :: 0 <= j <= |rest| ==> !RangeMarkerAt(rest, j)
    ensures var s := a + DateMarker + d1 + " TO " + rest;
            forall j :: |a| <= j <= |s| ==> !RangeMarkerAt(s, j)
  {
    var x := a + DateMarker + d1 + " TO ";
    var s := x + rest;
    var m := |a|;
    OpenMarkerMatches(a, d1, rest);
    forall j | m <= j <= |s|
      ensures !RangeMarkerAt(s, j)
    {
      if j == m {
        RangeAtOpening(x, rest, m);
      } else if j < m + 25 {
        if j + 11 <= |s| {
          NoMarkerInsideOpening(s, m, j);
        }
      } else {
        RangeMarkerShift(x, rest, j - |x|);
      }
    }
  }

  /**
   * A marker whose closing part is not `DATE]`, such as
   * `dateFiled:[1979-01-01 TO *]`, sets `filed_after` from its first date
   * and leaves `filed_before` unset, without an error, as long as no
   * complete range marker follows.
   */
  lemma OpenEndedRange(a: string, d1: string, rest: string)
    requires !Contains(a, "dateFiled")
    requires IsIsoDate(d1) && !ClosesRange(rest)
    requires forall j :: 0 <= j <= |rest| ==> !RangeMarkerAt(rest, j)
    ensures DateRange(a + DateMarker + d1 + " TO " + rest) == Bounds(Some(Slashed(d1)), None)
  {
    var s := a + DateMarker + d1 + " TO " + rest;
    var m := |a|;
    OpenMarkerMatches(a, d1, rest);
    MarkerFirst(s, m);
    OpenTailNoRange(a, d1, rest);
    DateRangeStartOnly(s, m);
  }

  /**
   * `filed_after` is set exactly when the first pattern matches somewhere;
   * when it matches nowhere both bounds stay unset and nothing is raised.
   */
  lemma StartBoundIffMarker(s: string)
    ensures DateRange(s).filedAfter.Some? <==> exists j :: 0 <= j <= |s| && StartMarkerAt(s, j)
    ensures (forall j :: 0 <= j <= |s| ==> !StartMarkerAt(s, j)) ==> DateRange(s) == Bounds(None, None)
  {
    var r := FirstAt(s, 0, StartMarkerAt);
    if r.Some? {
      var j := r.value;
      assert s[j..j + 9] == s[j..j + 11][..9];
      ContainsAt(s, j, "dateFiled");
    }
  }

  /** Every bound that is sent is in `YYYY/MM/DD` form. */
  lemma SlashedIsoDate(d: string)
    requires IsIsoDate(d)
    ensures IsSlashedDate(Slashed(d))
  {
  }

  // ---------------------------------------------------------------------------
  // The fallback query
  // ---------------------------------------------------------------------------

  lemma {:induction false} FilterAllChars(s: string, keep: char -> bool)
    ensures AllChars(Filter(s, keep), keep)
    decreases |s|
  {
    if s != [] {
      FilterAllChars(s[1..], keep);
    }
  }

  lemma {:induction false} TokensInherit(s: string, inToken: char -> bool, p: char -> bool)
    requires AllChars(s, p)
    ensures forall k :: 0 <= k < |Tokens(s, inToken)| ==> AllChars(Tokens(s, inToken)[k], p)
    decreases |s|
  {
    if s == [] {
    } else if !inToken(s[0]) {
      TokensInherit(s[1..], inToken, p);
    } else {
      var n := RunLength(s, inToken);
      TokensInherit(s[n..], inToken, p);
      var rest := Tokens(s[n..], inToken);
      forall k | 0 <= k < |Tokens(s, inToken)| ensures AllChars(Tokens(s, inToken)[k], p) {
        if k > 0 {
          assert Tokens(s, inToken)[k] == rest[k - 1];
        }
      }
    }
  }

  lemma {:induction false} FilterKeywordsThenSpaces(s: string)
    ensures Filter(FallbackKeywords(s), NotSpace) == Filter(s, IsAsciiAlnum)
    decreases |s|
  {
    if s != [] {
      FilterKeywordsThenSpaces(s[1..]);
      var c, k, k' := s[0], FallbackKeywords(s), FallbackKeywords(s[1..]);
      var keep: string := if IsAsciiAlnum(c) then [c] else [];
      assert Filter(s, IsAsciiAlnum) == keep + Filter(s[1..], IsAsciiAlnum);
      if FallbackChar(c) {
        assert k == [c] + k';
        assert k[0] == c && k[1..] == k';
        assert NotSpace(c) <==> IsAsciiAlnum(c);
        assert Filter(k, NotSpace) == keep + Filter(k', NotSpace);
      } else {
        assert k == [] + k' == k';
        assert keep == [];
        assert Filter(s, IsAsciiAlnum) == Filter(s[1..], IsAsciiAlnum);
      }
    }
  }

  /** The fallback query holds only characters of `[a-zA-Z0-9 ]`. */
  lemma FallbackQueryAlphabet(s: string)
    ensures AllChars(FallbackQuery(s), FallbackChar)
  {
    var keywords := FallbackKeywords(s);
    FilterAllChars(s, FallbackChar);
    TokensInherit(keywords, NotSpace, FallbackChar);
    JoinAllChars(SplitWhitespace(keywords), " AND ", FallbackChar);
  }

  /**
   * The fallback query is its words joined by " AND ": non-empty runs of
   * ASCII letters and digits which, put back together, are exactly the
   * letters and digits of the statement in their original order.
   */
  lemma FallbackQueryWords(s: string)
    ensures var ws := SplitWhitespace(FallbackKeywords(s));
            && FallbackQuery(s) == Join(ws, " AND ")
            && (forall k :: 0 <= k < |ws| ==> ws[k] != [] && AllChars(ws[k], IsAsciiAlnum))
            && Concat(ws) == Filter(s, IsAsciiAlnum)
  {
    var keywords := FallbackKeywords(s);
    var ws := SplitWhitespace(keywords);
    FilterAllChars(s, FallbackChar);
    TokensInherit(keywords, NotSpace, FallbackChar);
    TokensWellFormed(keywords, NotSpace);
    forall k | 0 <= k < |ws| ensures ws[k] != [] && AllChars(ws[k], IsAsciiAlnum) {
      assert AllChars(ws[k], NotSpace) && AllChars(ws[k], FallbackChar);
    }
    TokensConcat(keywords, NotSpace);
    FilterKeywordsThenSpaces(s);
  }

  // ---------------------------------------------------------------------------
  // The primary request and the retry
  // ---------------------------------------------------------------------------

  /**
   * Unless the statement is refused, the primary request carries the
   * statement and the extracted bounds, and the keyword-only retry is
   * issued exactly when the primary reply is a 200 whose "results" are
   * absent or empty; it then carries the same bounds.
   */
  lemma RetryExactlyWhenNothingFound(statement: string, baseUrl: string, maxResults: int,
                                     api: SearchQuery -> SearchReply, opinions: Value -> OpinionReply,
                                     toText: string -> string)
    requires ProhibitedFound(statement) == []
    ensures var run := SearchSpec(statement, baseUrl, maxResults, api, opinions, toText);
            var reply := api(PrimaryQuery(statement));
            && 1 <= |run.queries| <= 2
            && run.queries[0] == PrimaryQuery(statement)
            && (|run.queries| == 2 <==> reply.Reply? && reply.status == 200 && reply.body.Json?
                                        && NeedsRetry(reply.body.results))
            && (|run.queries| == 2 ==> run.queries[1] == RetryQuery(statement)
                                       && run.queries[1].filedAfter == run.queries[0].filedAfter
                                       && run.queries[1].filedBefore == run.queries[0].filedBefore)
  {
    var bounds := DateRange(statement);
    FetchQueries(statement, bounds, api);
    assert SearchSpec(statement, baseUrl, maxResults, api, opinions, toText).queries
           == Fetch(statement, bounds, api).queries;
  }

  /** The try block sends the primary request, then the retry exactly when the primary 200 reply found nothing. */
  lemma FetchQueries(statement: string, bounds: Bounds, api: SearchQuery -> SearchReply)
    ensures var f := Fetch(statement, bounds, api);
            var primary := SearchQuery(statement, bounds.filedAfter, bounds.filedBefore);
            var reply := api(primary);
            && 1 <= |f.queries| <= 2 && f.queries[0] == primary
            && (|f.queries| == 2 <==> reply.Reply? && reply.status == 200 && reply.body.Json?
                                      && NeedsRetry(reply.body.results))
            && (|f.queries| == 2 ==> f.queries[1] == SearchQuery(FallbackQuery(statement), bounds.filedAfter,
                                                                 bounds.filedBefore))
  {
  }

  /** A primary reply with a status other than 200 is an error naming the API, after one request. */
  lemma PrimaryStatusIsFatal(statement: string, baseUrl: string, maxResults: int,
                             api: SearchQuery -> SearchReply, opinions: Value -> OpinionReply,
                             toText: string -> string)
    requires ProhibitedFound(statement) == []
    requires api(PrimaryQuery(statement)).Reply? && api(PrimaryQuery(statement)).status != 200
    ensures var run := SearchSpec(statement, baseUrl, maxResults, api, opinions, toText);
            && run.outcome.Failure? && |run.queries| == 1 && run.lookups == []
            && Contains(run.outcome.error, "CourtListener API error")
  {
    var reply := api(PrimaryQuery(statement));
    ApiErrorTag(reply.status, reply.text);
  }

  /**
   * A retry with a status other than 200 is not an error: the primary body
   * stays. Primary `{"results": []}` then gives an empty list, and a
   * primary body without "results" gives the missing-results error.
   */
  lemma FailedRetryKeepsPrimaryBody(statement: string, baseUrl: string, maxResults: int,
                                    api: SearchQuery -> SearchReply, opinions: Value -> OpinionReply,
                                    toText: string -> string, text: string, results: Option<seq<Metadata>>)
    requires ProhibitedFound(statement) == []
    requires api(PrimaryQuery(statement)) == Reply(200, text, Json(results)) && NeedsRetry(results)
    requires api(RetryQuery(statement)).Reply? && api(RetryQuery(statement)).status != 200
    ensures var run := SearchSpec(statement, baseUrl, maxResults, api, opinions, toText);
            && |run.queries| == 2
            && (results == Some([]) ==> run.outcome == Success([]))
            && (results.None? ==> run.outcome.Failure? && Contains(run.outcome.error, "missing 'results'"))
  {
    MissingResultsTag(text);
  }

  /** A successful retry whose body has no "results" is the missing-results error. */
  lemma RetryWithoutResultsIsFatal(statement: string, baseUrl: string, maxResults: int,
                                   api: SearchQuery -> SearchReply, opinions: Value -> OpinionReply,
                                   toText: string -> string, text: string)
    requires ProhibitedFound(statement) == []
    requires api(PrimaryQuery(statement)).Reply? && api(PrimaryQuery(statement)).status == 200
    requires api(PrimaryQuery(statement)).body.Json? && NeedsRetry(api(PrimaryQuery(statement)).body.results)
    requires api(RetryQuery(statement)) == Reply(200, text, Json(None))
    ensures var run := SearchSpec(statement, baseUrl, maxResults, api, opinions, toText);
            run.outcome.Failure? && Contains(run.outcome.error, "missing 'results'") && run.lookups == []
  {
    MissingResultsTag(text);
  }

  /** A 200 primary reply with a non-empty "results" list is the list the loop processes, with no retry. */
  lemma PrimaryResultsProcessed(statement: string, baseUrl: string, maxResults: int,
                                api: SearchQuery -> SearchReply, opinions: Value -> OpinionReply,
                                toText: string -> string, text: string, rs: seq<Metadata>)
    requires ProhibitedFound(statement) == []
    requires api(PrimaryQuery(statement)) == Reply(200, text, Json(Some(rs))) && rs != []
    ensures var run := SearchSpec(statement, baseUrl, maxResults, api, opinions, toText);
            var n := Limit(maxResults, |rs|);
            && run.outcome == Success(Prepared(rs, n, baseUrl, opinions, toText))
            && run.queries == [PrimaryQuery(statement)]
            && run.lookups == Lookups(rs, n)
  {
    FetchPrimaryFound(statement, DateRange(statement), api, text, rs);
    SearchOfFetched(statement, baseUrl, maxResults, api, opinions, toText, [PrimaryQuery(statement)], rs);
  }

  /**
   * When the primary reply found nothing, the "results" list of a 200 retry
   * is the list the loop processes.
   */
  lemma RetryResultsProcessed(statement: string, baseUrl: string, maxResults: int,
                              api: SearchQuery -> SearchReply, opinions: Value -> OpinionReply,
                              toText: string -> string, text: string, results: Option<seq<Metadata>>,
                              retryText: string, rs: seq<Metadata>)
    requires ProhibitedFound(statement) == []
    requires api(PrimaryQuery(statement)) == Reply(200, text, Json(results)) && NeedsRetry(results)
    requires api(RetryQuery(statement)) == Reply(200, retryText, Json(Some(rs)))
    ensures var run := SearchSpec(statement, baseUrl, maxResults, api, opinions, toText);
            var n := Limit(maxResults, |rs|);
            && run.outcome == Success(Prepared(rs, n, baseUrl, opinions, toText))
            && run.queries == [PrimaryQuery(statement), RetryQuery(statement)]
            && run.lookups == Lookups(rs, n)
  {
    FetchRetryFound(statement, DateRange(statement), api, text, results, retryText, rs);
    SearchOfFetched(statement, baseUrl, maxResults, api, opinions, toText,
                    [PrimaryQuery(statement), RetryQuery(statement)], rs);
  }

  /** The try block keeps a non-empty primary list. */
  lemma FetchPrimaryFound(statement: string, bounds: Bounds, api: SearchQuery -> SearchReply,
                          text: string, rs: seq<Metadata>)
    requires api(SearchQuery(statement, bounds.filedAfter, bounds.filedBefore)) == Reply(200, text, Json(Some(rs)))
    requires rs != []
    ensures Fetch(statement, bounds, api)
            == Fetched([SearchQuery(statement, bounds.filedAfter, bounds.filedBefore)], Success(rs))
  {
  }

  /** The try block takes the list of a 200 retry. */
  lemma FetchRetryFound(statement: string, bounds: Bounds, api: SearchQuery -> SearchReply, text: string,
                        results: Option<seq<Metadata>>, retryText: string, rs: seq<Metadata>)
    requires api(SearchQuery(statement, bounds.filedAfter, bounds.filedBefore)) == Reply(200, text, Json(results))
    requires NeedsRetry(results)
    requires api(SearchQuery(FallbackQuery(statement), bounds.filedAfter, bounds.filedBefore))
             == Reply(200, retryText, Json(Some(rs)))
    ensures Fetch(statement, bounds, api)
            == Fetched([SearchQuery(statement, bounds.filedAfter, bounds.filedBefore),
                        SearchQuery(FallbackQuery(statement), bounds.filedAfter, bounds.filedBefore)], Success(rs))
  {
  }

  /** Once the try block has produced a list, the search is the loop over its window. */
  lemma SearchOfFetched(statement: string, baseUrl: string, maxResults: int,
                        api: SearchQuery -> SearchReply, opinions: Value -> OpinionReply,
                        toText: string -> string, queries: seq<SearchQuery>, rs: seq<Metadata>)
    requires ProhibitedFound(statement) == []
    requires Fetch(statement, DateRange(statement), api) == Fetched(queries, Success(rs))
    ensures var n := Limit(maxResults, |rs|);
            SearchSpec(statement, baseUrl, maxResults, api, opinions, toText)
            == SearchRun(Success(Prepared(rs, n, baseUrl, opinions, toText)), queries, Lookups(rs, n))
  {
  }

  /** Primary `{"results": []}`, then a retry with one usable match: the search gives exactly that record. */
  lemma RetryFindsOne(statement: string, baseUrl: string, maxResults: int,
                      api: SearchQuery -> SearchReply, opinions: Value -> OpinionReply,
                      toText: string -> string, text: string, retryText: string, m: Metadata)
    requires ProhibitedFound(statement) == [] && maxResults >= 1
    requires api(PrimaryQuery(statement)) == Reply(200, text, Json(Some([])))
    requires api(RetryQuery(statement)) == Reply(200, retryText, Json(Some([m])))
    requires ProcessEntry(m, 0, baseUrl, opinions, toText).Keep?
    ensures SearchSpec(statement, baseUrl, maxResults, api, opinions, toText).outcome
            == Success([ProcessEntry(m, 0, baseUrl, opinions, toText).opinion])
  {
    RetryResultsProcessed(statement, baseUrl, maxResults, api, opinions, toText, text, Some([]), retryText, [m]);
    assert Limit(maxResults, 1) == 1;
    assert Prepared([m], 1, baseUrl, opinions, toText) == [ProcessEntry(m, 0, baseUrl, opinions, toText).opinion];
  }

  // ---------------------------------------------------------------------------
  // The result loop
  // ---------------------------------------------------------------------------

  /**
   * The records are the accepted entries, in upstream order: record `j`
   * is what the loop made of the entry at raw position `Accepted[j]`.
   */
  lemma {:induction false} PreparedFromAccepted(results: seq<Metadata>, n: nat, baseUrl: string,
                                                opinions: Value -> OpinionReply, toText: string -> string)
    requires n <= |results|
    ensures var out := Prepared(results, n, baseUrl, opinions, toText);
            var idx := Accepted(results, n, baseUrl, opinions, toText);
            && |out| == |idx|
            && forall j :: 0 <= j < |idx| ==>
                 idx[j] < n && ProcessEntry(results[idx[j]], idx[j], baseUrl, opinions, toText) == Keep(out[j])
    decreases n
  {
    if n > 0 {
      PreparedFromAccepted(results, n - 1, baseUrl, opinions, toText);
    }
  }

  predicate AllBelow(idx: seq<nat>, n: nat) {
    forall j :: 0 <= j < |idx| ==> idx[j] < n
  }

  predicate StrictlyIncreasing(idx: seq<nat>) {
    forall j, k :: 0 <= j < k < |idx| ==> idx[j] < idx[k]
  }

  /** The accepted positions are below `n` and strictly increasing. */
  lemma {:induction false} AcceptedInOrder(results: seq<Metadata>, n: nat, baseUrl: string,
                                           opinions: Value -> OpinionReply, toText: string -> string)
    requires n <= |results|
    ensures AllBelow(Accepted(results, n, baseUrl, opinions, toText), n)
    ensures StrictlyIncreasing(Accepted(results, n, baseUrl, opinions, toText))
    decreases n
  {
    if n > 0 {
      AcceptedInOrder(results, n - 1, baseUrl, opinions, toText);
      var prev := Accepted(results, n - 1, baseUrl, opinions, toText);
      var e := ProcessEntry(results[n - 1], n - 1, baseUrl, opinions, toText);
      var idx := Accepted(results, n, baseUrl, opinions, toText);
      assert idx == prev + (if e.Keep? then [n - 1] else []);
      assert forall j :: 0 <= j < |prev| ==> idx[j] == prev[j];
      assert forall j :: |prev| <= j < |idx| ==> idx[j] == n - 1;
    }
  }

  /** A position is accepted exactly when its own entry is kept: a skipped entry never stops the ones after it. */
  lemma {:induction false} AcceptedIffKept(results: seq<Metadata>, n: nat, baseUrl: string,
                                           opinions: Value -> OpinionReply, toText: string -> string)
    requires n <= |results|
    ensures forall i :: 0 <= i < n ==>
              (i in Accepted(results, n, baseUrl, opinions, toText)
               <==> ProcessEntry(results[i], i, baseUrl, opinions, toText).Keep?)
    decreases n
  {
    if n > 0 {
      AcceptedIffKept(results, n - 1, baseUrl, opinions, toText);
      AcceptedInOrder(results, n - 1, baseUrl, opinions, toText);
      var prev := Accepted(results, n - 1, baseUrl, opinions, toText);
      var e := ProcessEntry(results[n - 1], n - 1, baseUrl, opinions, toText);
      var last: seq<nat> := if e.Keep? then [n - 1] else [];
      assert Accepted(results, n, baseUrl, opinions, toText) == prev + last;
      assert n - 1 !in prev;
      forall i | 0 <= i < n
        ensures i in prev + last <==> ProcessEntry(results[i], i, baseUrl, opinions, toText).Keep?
      {
        assert i in prev + last <==> i in prev || i in last;
        if i < n - 1 {
          assert i !in last;
        } else {
          assert i in last <==> e.Keep?;
        }
      }
    }
  }

  /** At most one record per processed entry. */
  lemma {:induction false} PreparedLength(results: seq<Metadata>, n: nat, baseUrl: string,
                                          opinions: Value -> OpinionReply, toText: string -> string)
    requires n <= |results|
    ensures |Prepared(results, n, baseUrl, opinions, toText)| <= n
    decreases n
  {
    if n > 0 {
      PreparedLength(results, n - 1, baseUrl, opinions, toText);
    }
  }

  /**
   * Every record was requested from the opinions endpoint, and only
   * entries that passed the field, id and url checks were requested.
   */
  lemma {:induction false} LookupsCoverRecords(results: seq<Metadata>, n: nat, baseUrl: string,
                                               opinions: Value -> OpinionReply, toText: string -> string)
    requires n <= |results|
    ensures |Prepared(results, n, baseUrl, opinions, toText)| <= |Lookups(results, n)| <= n
    ensures forall k :: 0 <= k < |Lookups(results, n)| ==> Truthy(Lookups(results, n)[k])
    decreases n
  {
    if n > 0 {
      LookupsCoverRecords(results, n - 1, baseUrl, opinions, toText);
    }
  }

  /** The id of every record is among the ids requested from the opinions endpoint. */
  lemma {:induction false} RecordsLookedUp(results: seq<Metadata>, n: nat, baseUrl: string,
                                           opinions: Value -> OpinionReply, toText: string -> string)
    requires n <= |results|
    ensures forall j :: 0 <= j < |Prepared(results, n, baseUrl, opinions, toText)| ==>
              Prepared(results, n, baseUrl, opinions, toText)[j].id in Lookups(results, n)
    decreases n
  {
    if n > 0 {
      RecordsLookedUp(results, n - 1, baseUrl, opinions, toText);
      var prev := Prepared(results, n - 1, baseUrl, opinions, toText);
      var e := ProcessEntry(results[n - 1], n - 1, baseUrl, opinions, toText);
      var out := Prepared(results, n, baseUrl, opinions, toText);
      var before := Lookups(results, n - 1);
      var last := match LookupFor(results[n - 1]) case Some(id) => [id] case None => [];
      assert out == prev + Emit(e);
      assert Lookups(results, n) == before + last;
      if e.Keep? {
        KeptRecord(results[n - 1], n - 1, baseUrl, opinions, toText);
        assert e.opinion.id in last;
      }
      forall j | 0 <= j < |out|
        ensures out[j].id in before + last
      {
        if j < |prev| {
          assert out[j] == prev[j];
        } else {
          assert out[j] == e.opinion;
        }
      }
    }
  }

  /**
   * Within the window of the first `min(max_results, len(results))` upstream
   * results, every entry the loop keeps is in the answer of the search.
   */
  lemma KeptEntriesReturned(statement: string, baseUrl: string, maxResults: int, api: SearchQuery -> SearchReply,
                            opinions: Value -> OpinionReply, toText: string -> string, i: nat)
    requires ProhibitedFound(statement) == []
    requires Fetch(statement, DateRange(statement), api).results.Success?
    requires var rs := Fetch(statement, DateRange(statement), api).results.value;
             i < Limit(maxResults, |rs|) && ProcessEntry(rs[i], i, baseUrl, opinions, toText).Keep?
    ensures var run := SearchSpec(statement, baseUrl, maxResults, api, opinions, toText);
            var rs := Fetch(statement, DateRange(statement), api).results.value;
            run.outcome.Success? && ProcessEntry(rs[i], i, baseUrl, opinions, toText).opinion in run.outcome.value
  {
    var rs := Fetch(statement, DateRange(statement), api).results.value;
    var n := Limit(maxResults, |rs|);
    var out := Prepared(rs, n, baseUrl, opinions, toText);
    var idx := Accepted(rs, n, baseUrl, opinions, toText);
    assert SearchSpec(statement, baseUrl, maxResults, api, opinions, toText).outcome == Success(out);
    AcceptedIffKept(rs, n, baseUrl, opinions, toText);
    PreparedFromAccepted(rs, n, baseUrl, opinions, toText);
    var j :| 0 <= j < |idx| && idx[j] == i;
    assert Keep(out[j]) == ProcessEntry(rs[i], i, baseUrl, opinions, toText);
  }

  /** A successful search has at most `max(0, min(max_results, len(results)))` records. */
  lemma OutputBound(statement: string, baseUrl: string, maxResults: int, api: SearchQuery -> SearchReply,
                    opinions: Value -> OpinionReply, toText: string -> string)
    ensures var run := SearchSpec(statement, baseUrl, maxResults, api, opinions, toText);
            var fetched := Fetch(statement, DateRange(statement), api);
            run.outcome.Success? ==>
              && fetched.results.Success?
              && |run.outcome.value| <= |fetched.results.value|
              && (maxResults >= 0 ==> |run.outcome.value| <= maxResults)
              && (maxResults <= 0 ==> run.outcome.value == [])
  {
    var fetched := Fetch(statement, DateRange(statement), api);
    if ProhibitedFound(statement) == [] && fetched.results.Success? {
      var results := fetched.results.value;
      PreparedLength(results, Limit(maxResults, |results|), baseUrl, opinions, toText);
    }
  }

  /**
   * Citations are numbered by raw upstream position, not by position in the
   * output: when the first entry is skipped and the second accepted, the
   * only record is cited as "[2]".
   */
  lemma NumberingKeepsGaps(results: seq<Metadata>, baseUrl: string, opinions: Value -> OpinionReply,
                           toText: string -> string)
    requires |results| >= 2
    requires ProcessEntry(results[0], 0, baseUrl, opinions, toText).Skip?
    requires ProcessEntry(results[1], 1, baseUrl, opinions, toText).Keep?
    ensures var out := Prepared(results, 2, baseUrl, opinions, toText);
            |out| == 1 && StartsWith(out[0].promptText, "[2] ")
  {
    assert Prepared(results, 1, baseUrl, opinions, toText) == [];
    var e := ProcessEntry(results[1], 1, baseUrl, opinions, toText);
    assert Prepared(results, 2, baseUrl, opinions, toText) == [e.opinion];
    KeptRecord(results[1], 1, baseUrl, opinions, toText);
    assert CitationNumber(1 + 1) == "[2] ";
  }

  /** An opinions reply whose "results" is the empty list makes that entry be skipped. */
  lemma EmptyDetailSkipsEntry(m: Metadata, i: nat, baseUrl: string, opinions: Value -> OpinionReply,
                              toText: string -> string)
    requires LookupFor(m).Some? && opinions(LookupFor(m).value) == OpinionJson(Some([]))
    ensures ProcessEntry(m, i, baseUrl, opinions, toText).Skip?
  {
  }
}
