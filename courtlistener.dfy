/**
 * The CourtListener search target: `CourtListener.search` run against given
 * replies of the search and opinions endpoints.
 *
 * The method `Search` follows the source step by step (prohibited-term check,
 * date extraction, primary search, keyword-only retry, then a loop that
 * validates each upstream result and builds a fixed-shape record). It is
 * proved equal to `SearchSpec`, a composition of functions, and the
 * properties of the search are lemmas about those functions.
 */
module CourtListener {
  import opened Wrappers
  import opened JsonValues
  import opened Strings

  /** One entry of the "results" list of a reply: its fields by name. */
  type Metadata = map<string, Value>

  /** The record built for each accepted result; the fields are the keys of RESULTS_DATA_FORMAT. */
  datatype Opinion = Opinion(
    id: Value,
    caseName: Value,
    court: Value,
    absoluteUrl: string,
    status: Value,
    dateFiled: Value,
    text: string,
    promptText: string,
    uiText: string,
    uiUrl: string)

  /** RESULTS_DATA_FORMAT: every field the empty string. */
  const ResultsDataFormat: Opinion := Opinion(Str(""), Str(""), Str(""), "", Str(""), Str(""), "", "", "", "")

  /** The stoplist: a statement containing one of these as a whole word is refused. */
  const ProhibitedTerms: seq<string> := ["law", "laws", "case", "cases", "precedent", "precedents", "adjudicated"]

  /**
   * The parameters of one GET to the search endpoint. The endpoint, the
   * token header, the timeout and the constant parameters `type=o` and
   * `order=score desc` are the same for every request and are not recorded.
   */
  datatype SearchQuery = SearchQuery(q: string, filedAfter: Option<string>, filedBefore: Option<string>)

  /** What `response.json()` gives: a failure to parse, or an object that may or may not hold "results". */
  datatype Body = NotJson(error: string) | Json(results: Option<seq<Metadata>>)

  /** A reply of the search endpoint; `TransportError` is an exception raised by `requests.get`. */
  datatype SearchReply = TransportError(reason: string) | Reply(status: int, text: string, body: Body)

  /** A reply of the opinions endpoint after `.json()`: a failure (network or parse), or an object. */
  datatype OpinionReply = OpinionFailed | OpinionJson(results: Option<seq<Metadata>>)

  /** Why the result loop skipped an entry. */
  datatype SkipReason =
    | MissingFields   // one of the five required keys is absent
    | NoId            // neither "id" nor "cluster_id" is truthy
    | UrlNotString    // `base_url + absolute_url` raises
    | DetailUnusable  // the opinions request or the extraction of its html raises
    | DateNotString   // `date_filed[0:4]` raises

  datatype Entry = Keep(opinion: Opinion) | Skip(reason: SkipReason)

  /** The two date bounds sent with every search request. */
  datatype Bounds = Bounds(filedAfter: Option<string>, filedBefore: Option<string>)

  /** Everything one call of the search produces: its outcome, the search requests and the opinion ids requested. */
  datatype SearchRun = SearchRun(outcome: Result<seq<Opinion>, string>, queries: seq<SearchQuery>, lookups: seq<Value>)

  // ---------------------------------------------------------------------------
  // Prohibited terms (lines 46-52)
  // ---------------------------------------------------------------------------

  /** The `\w+` tokens of the lower-cased statement. */
  function StatementWords(statement: string): seq<string> {
    Words(Lower(statement))
  }

  /** The terms of `terms` that occur among `words`, in the order of `terms`. */
  function FoundTerms(terms: seq<string>, words: seq<string>): (found: seq<string>)
    ensures forall t :: t in found <==> t in terms && t in words
    ensures |found| <= |terms|
    decreases |terms|
  {
    if terms == [] then []
    else (if terms[0] in words then [terms[0]] else []) + FoundTerms(terms[1..], words)
  }

  /** The intersection of the stoplist with the statement's words. */
  function ProhibitedFound(statement: string): seq<string> {
    FoundTerms(ProhibitedTerms, StatementWords(statement))
  }

  /** Each found term as Python's `repr` prints it inside the set: between single quotes. */
  function Quoted(ts: seq<string>): (r: seq<string>)
    ensures |r| == |ts|
    ensures forall k :: 0 <= k < |ts| ==> r[k] == "'" + ts[k] + "'"
    ensures forall k :: 0 <= k < |ts| ==> Contains(r[k], ts[k])
  {
    seq(|ts|, k requires 0 <= k < |ts| => "'" + ts[k] + "'")
  }

  /** The message raised on line 50, with the set rendered as Python prints it. */
  function ProhibitedMessage(found: seq<string>): string {
    "Search statement contains " + ("prohibited terms" + (": {" + Join(Quoted(found), ", ") + "}"))
  }

  // ---------------------------------------------------------------------------
  // Date bounds (lines 54-60)
  // ---------------------------------------------------------------------------

  const DateMarker: string := "dateFiled:["

  /** `[0-9]{4}-[0-9]{2}-[0-9]{2}` */
  predicate IsIsoDate(d: string) {
    && |d| == 10
    && IsAsciiDigit(d[0]) && IsAsciiDigit(d[1]) && IsAsciiDigit(d[2]) && IsAsciiDigit(d[3])
    && d[4] == '-' && IsAsciiDigit(d[5]) && IsAsciiDigit(d[6])
    && d[7] == '-' && IsAsciiDigit(d[8]) && IsAsciiDigit(d[9])
  }

  /** `YYYY/MM/DD`: the form the dates are sent in. */
  predicate IsSlashedDate(d: string) {
    && |d| == 10
    && IsAsciiDigit(d[0]) && IsAsciiDigit(d[1]) && IsAsciiDigit(d[2]) && IsAsciiDigit(d[3])
    && d[4] == '/' && IsAsciiDigit(d[5]) && IsAsciiDigit(d[6])
    && d[7] == '/' && IsAsciiDigit(d[8]) && IsAsciiDigit(d[9])
  }

  /** The pattern of line 57, `dateFiled:\[(DATE) TO`, matches at position `j`. */
  predicate StartMarkerAt(s: string, j: nat) {
    && j + 24 <= |s|
    && s[j..j + 11] == DateMarker
    && IsIsoDate(s[j + 11..j + 21])
    && s[j + 21..j + 24] == " TO"
  }

  /** The pattern of line 58, `dateFiled:\[DATE TO (DATE)\]`, matches at position `j`. */
  predicate RangeMarkerAt(s: string, j: nat) {
    && j + 36 <= |s|
    && s[j..j + 11] == DateMarker
    && IsIsoDate(s[j + 11..j + 21])
    && s[j + 21..j + 25] == " TO "
    && IsIsoDate(s[j + 25..j + 35])
    && s[j + 35] == ']'
  }

  /** The leftmost position at or after `from` where `at` holds: the first element of `re.findall`. */
  function FirstAt(s: string, from: nat, at: (string, nat) -> bool): (r: Option<nat>)
    ensures r.Some? ==> from <= r.value <= |s| && at(s, r.value)
    ensures r.Some? ==> forall j :: from <= j < r.value ==> !at(s, j)
    ensures r.None? ==> forall j :: from <= j <= |s| ==> !at(s, j)
    decreases |s| + 1 - from
  {
    if from > |s| then None
    else if at(s, from) then Some(from)
    else FirstAt(s, from + 1, at)
  }

  /** `d.replace("-", "/")` */
  function Slashed(d: string): string {
    ReplaceChar(d, '-', '/')
  }

  /**
   * `filed_after` and `filed_before` after the try block. The second pattern
   * is looked for only once the first has matched, and a failure of the
   * second leaves the first assignment in place.
   */
  function DateRange(s: string): (b: Bounds)
    ensures !Contains(s, "dateFiled") ==> b == Bounds(None, None)
    ensures b.filedBefore.Some? ==> b.filedAfter.Some?
    ensures b.filedAfter.Some? ==> IsSlashedDate(b.filedAfter.value)
    ensures b.filedBefore.Some? ==> IsSlashedDate(b.filedBefore.value)
  {
    if !Contains(s, "dateFiled") then Bounds(None, None)
    else
      match FirstAt(s, 0, StartMarkerAt)
      case None => Bounds(None, None)
      case Some(j) =>
        var after := Slashed(s[j + 11..j + 21]);
        match FirstAt(s, 0, RangeMarkerAt)
        case None => Bounds(Some(after), None)
        case Some(k) => Bounds(Some(after), Some(Slashed(s[k + 25..k + 35])))
  }

  // ---------------------------------------------------------------------------
  // The fallback query (lines 90-91)
  // ---------------------------------------------------------------------------

  /** `[a-zA-Z0-9 ]` */
  predicate FallbackChar(c: char) {
    IsAsciiAlnum(c) || c == ' '
  }

  /** `re.sub(r'[^a-zA-Z0-9 ]', '', s)` */
  function FallbackKeywords(s: string): string {
    Filter(s, FallbackChar)
  }

  /** `" AND ".join(fallback_keywords.split())` */
  function FallbackQuery(s: string): string {
    Join(SplitWhitespace(FallbackKeywords(s)), " AND ")
  }

  // ---------------------------------------------------------------------------
  // The search requests (lines 66-117)
  // ---------------------------------------------------------------------------

  /** The retry is issued when "results" is absent or the empty list. */
  predicate NeedsRetry(results: Option<seq<Metadata>>) {
    results.None? || results.value == []
  }

  /** Every exception caught on line 115 is raised again with this prefix. */
  function FetchError(detail: string): string {
    "Failed to fetch results from CourtListener: " + detail
  }

  function ApiErrorMessage(status: int, text: string): string {
    "CourtListener API error" + (" " + IntToString(status) + ": " + text)
  }

  function MissingResultsMessage(body: string): string {
    "CourtListener response " + ("missing 'results'" + (": " + body))
  }

  /** The primary request: the statement itself with the extracted bounds. */
  function PrimaryQuery(statement: string): SearchQuery {
    var b := DateRange(statement);
    SearchQuery(statement, b.filedAfter, b.filedBefore)
  }

  /** The retry request: the fallback query with the same bounds. */
  function RetryQuery(statement: string): SearchQuery {
    var b := DateRange(statement);
    SearchQuery(FallbackQuery(statement), b.filedAfter, b.filedBefore)
  }

  /** The check on line 112 of the body that ends up in `raw_results`. */
  function RequireResults(text: string, results: Option<seq<Metadata>>): Result<seq<Metadata>, string> {
    if results.None? then Failure(FetchError(MissingResultsMessage(text))) else Success(results.value)
  }

  /** Lines 106-113: a retry with status 200 replaces the primary body, any other status keeps it. */
  function AfterRetry(text: string, results: Option<seq<Metadata>>, retry: SearchReply): Result<seq<Metadata>, string> {
    match retry
    case TransportError(reason) => Failure(FetchError(reason))
    case Reply(status, retryText, body) =>
      if status != 200 then RequireResults(text, results)
      else
        match body
        case NotJson(e) => Failure(FetchError(e))
        case Json(retryResults) => RequireResults(retryText, retryResults)
  }

  /** The requests issued and the upstream results list (or the error) after the try block. */
  datatype Fetched = Fetched(queries: seq<SearchQuery>, results: Result<seq<Metadata>, string>)

  function Fetch(statement: string, bounds: Bounds, api: SearchQuery -> SearchReply): Fetched {
    var primary := SearchQuery(statement, bounds.filedAfter, bounds.filedBefore);
    match api(primary)
    case TransportError(reason) => Fetched([primary], Failure(FetchError(reason)))
    case Reply(status, text, body) =>
      if status != 200 then Fetched([primary], Failure(FetchError(ApiErrorMessage(status, text))))
      else
        match body
        case NotJson(e) => Fetched([primary], Failure(FetchError(e)))
        case Json(results) =>
          if !NeedsRetry(results) then Fetched([primary], Success(results.value))
          else
            var retry := SearchQuery(FallbackQuery(statement), bounds.filedAfter, bounds.filedBefore);
            Fetched([primary, retry], AfterRetry(text, results, api(retry)))
  }

  // ---------------------------------------------------------------------------
  // One upstream result (lines 121-163)
  // ---------------------------------------------------------------------------

  /** The five keys required on line 125. */
  predicate HasRequiredFields(m: Metadata) {
    "caseName" in m && "court" in m && "absolute_url" in m && "status" in m && "dateFiled" in m
  }

  /** `opinion_metadata.get("id") or opinion_metadata.get("cluster_id")` */
  function OpinionId(m: Metadata): Value {
    var id := Get(m, "id");
    if Truthy(id) then id else Get(m, "cluster_id")
  }

  /** The id sent to the opinions endpoint for this entry, when the loop gets that far. */
  function LookupFor(m: Metadata): Option<Value> {
    if HasRequiredFields(m) && Truthy(OpinionId(m)) && m["absolute_url"].Str? then Some(OpinionId(m)) else None
  }

  /**
   * Lines 150-153: the text of the first detail result. A missing "results"
   * key reads as `[{}]` and a missing "html" key as the empty html; `None`
   * stands for the exceptions that make the loop skip the entry.
   */
  function OpinionText(reply: OpinionReply, toText: string -> string): Option<string> {
    match reply
    case OpinionFailed => None
    case OpinionJson(results) =>
      var entries := if results.Some? then results.value else [map[]];
      if entries == [] then None
      else
        var html := if "html" in entries[0] then entries[0]["html"] else Str("");
        if html.Str? then Some(toText(html.s)) else None
  }

  /** The citation line of line 155. */
  function PromptText(n: nat, caseName: Value, year: string, court: Value, url: string): string {
    CitationNumber(n) + (Render(caseName) + " (" + year + ") " + Render(court) + ", as sourced from " + url + ":")
  }

  /** The citation line of line 156. */
  function UiText(n: nat, caseName: Value, year: string, court: Value): string {
    CitationNumber(n) + (Render(caseName) + " (" + year + "), " + Render(court))
  }

  /** The number in brackets that opens both citation lines. */
  function CitationNumber(n: nat): string {
    "[" + NatToString(n) + "] "
  }

  /** What the loop does with the entry at raw position `i`. */
  function ProcessEntry(m: Metadata, i: nat, baseUrl: string, opinions: Value -> OpinionReply,
                        toText: string -> string): (e: Entry)
    ensures e == Skip(MissingFields) <==> !HasRequiredFields(m)
    ensures e.Keep? <==> LookupFor(m).Some? && OpinionText(opinions(LookupFor(m).value), toText).Some?
                         && m["dateFiled"].Str?
  {
    if !HasRequiredFields(m) then Skip(MissingFields)
    else
      var id := OpinionId(m);
      if !Truthy(id) then Skip(NoId)
      else if !m["absolute_url"].Str? then Skip(UrlNotString)
      else
        var url := baseUrl + m["absolute_url"].s;
        match OpinionText(opinions(id), toText)
        case None => Skip(DetailUnusable)
        case Some(text) =>
          if !m["dateFiled"].Str? then Skip(DateNotString)
          else
            var year := Take(m["dateFiled"].s, 4);
            Keep(Opinion(id, m["caseName"], m["court"], url, m["status"], m["dateFiled"], text,
                         PromptText(i + 1, m["caseName"], year, m["court"], url),
                         UiText(i + 1, m["caseName"], year, m["court"]), url))
  }

  /**
   * A kept record has the entry's id, copies its fields, prefixes its URL
   * with `base_url`, uses that URL for the interface too, and is cited by
   * the raw position plus one.
   */
  lemma KeptRecord(m: Metadata, i: nat, baseUrl: string, opinions: Value -> OpinionReply, toText: string -> string)
    requires ProcessEntry(m, i, baseUrl, opinions, toText).Keep?
    ensures var o := ProcessEntry(m, i, baseUrl, opinions, toText).opinion;
            && Some(o.id) == LookupFor(m) && Truthy(o.id)
            && o.absoluteUrl == baseUrl + m["absolute_url"].s && o.uiUrl == o.absoluteUrl
            && o.caseName == m["caseName"] && o.court == m["court"]
            && o.status == m["status"] && o.dateFiled == m["dateFiled"]
            && Some(o.text) == OpinionText(opinions(o.id), toText)
            && o.promptText == CitationNumber(i + 1) + (Render(m["caseName"]) + " (" + Take(m["dateFiled"].s, 4)
                                                        + ") " + Render(m["court"]) + ", as sourced from "
                                                        + o.absoluteUrl + ":")
            && o.uiText == CitationNumber(i + 1) + (Render(m["caseName"]) + " (" + Take(m["dateFiled"].s, 4)
                                                    + "), " + Render(m["court"]))
            && StartsWith(o.promptText, CitationNumber(i + 1))
  {
    var o := ProcessEntry(m, i, baseUrl, opinions, toText).opinion;
    var year := Take(m["dateFiled"].s, 4);
    assert o.promptText == PromptText(i + 1, m["caseName"], year, m["court"], baseUrl + m["absolute_url"].s);
    PromptTextCites(i + 1, m["caseName"], year, m["court"], baseUrl + m["absolute_url"].s);
  }

  /** The citation line opens with its number in brackets. */
  lemma PromptTextCites(n: nat, caseName: Value, year: string, court: Value, url: string)
    ensures StartsWith(PromptText(n, caseName, year, court, url), CitationNumber(n))
  {
    var tail := Render(caseName) + " (" + year + ") " + Render(court) + ", as sourced from " + url + ":";
    OpensWith(CitationNumber(n), tail);
  }

  function Emit(e: Entry): seq<Opinion> {
    if e.Keep? then [e.opinion] else []
  }

  /** The records prepared from the first `n` upstream results. */
  function Prepared(results: seq<Metadata>, n: nat, baseUrl: string, opinions: Value -> OpinionReply,
                    toText: string -> string): seq<Opinion>
    requires n <= |results|
  {
    if n == 0 then []
    else Prepared(results, n - 1, baseUrl, opinions, toText)
         + Emit(ProcessEntry(results[n - 1], n - 1, baseUrl, opinions, toText))
  }

  /** The ids requested from the opinions endpoint while processing the first `n` upstream results. */
  function Lookups(results: seq<Metadata>, n: nat): seq<Value>
    requires n <= |results|
  {
    if n == 0 then []
    else Lookups(results, n - 1) + (match LookupFor(results[n - 1]) case Some(id) => [id] case None => [])
  }

  /** The raw positions, among the first `n`, of the entries that produce a record. */
  function Accepted(results: seq<Metadata>, n: nat, baseUrl: string, opinions: Value -> OpinionReply,
                    toText: string -> string): seq<nat>
    requires n <= |results|
  {
    if n == 0 then []
    else Accepted(results, n - 1, baseUrl, opinions, toText)
         + (if ProcessEntry(results[n - 1], n - 1, baseUrl, opinions, toText).Keep? then [n - 1] else [])
  }

  /** The number of iterations of `range(0, min(max_results, len(results)))`. */
  function Limit(maxResults: int, count: nat): (n: nat)
    ensures n <= count
    ensures maxResults >= 0 ==> n <= maxResults
    ensures maxResults <= 0 ==> n == 0
    ensures maxResults >= count ==> n == count
    ensures 0 <= maxResults < count ==> n == maxResults
  {
    if maxResults <= 0 then 0 else if maxResults < count then maxResults else count
  }

  // ---------------------------------------------------------------------------
  // The whole search
  // ---------------------------------------------------------------------------

  function SearchSpec(statement: string, baseUrl: string, maxResults: int, api: SearchQuery -> SearchReply,
                      opinions: Value -> OpinionReply, toText: string -> string): SearchRun
  {
    var found := ProhibitedFound(statement);
    if found != [] then SearchRun(Failure(ProhibitedMessage(found)), [], [])
    else
      var fetched := Fetch(statement, DateRange(statement), api);
      match fetched.results
      case Failure(e) => SearchRun(Failure(e), fetched.queries, [])
      case Success(results) =>
        var n := Limit(maxResults, |results|);
        SearchRun(Success(Prepared(results, n, baseUrl, opinions, toText)), fetched.queries, Lookups(results, n))
  }

  /**
   * `CourtListener.search(statement)` with the configuration (`base_url`,
   * `max_results`) and the two endpoints given as parameters. Besides the
   * outcome it returns the search requests it issued and the opinion ids it
   * requested, in order.
   */
  method Search(statement: string, baseUrl: string, maxResults: int, api: SearchQuery -> SearchReply,
                opinions: Value -> OpinionReply, toText: string -> string)
    returns (outcome: Result<seq<Opinion>, string>, queries: seq<SearchQuery>, lookups: seq<Value>)
    ensures SearchRun(outcome, queries, lookups) == SearchSpec(statement, baseUrl, maxResults, api, opinions, toText)
  {
    var filedBefore: Option<string> := None;
    var filedAfter: Option<string> := None;
    queries, lookups := [], [];

    var found := ProhibitedFound(statement);
    if found != [] {
      return Failure(ProhibitedMessage(found)), queries, lookups;
    }

    var bounds := DateRange(statement);
    filedAfter, filedBefore := bounds.filedAfter, bounds.filedBefore;

    var fetched;
    queries, fetched := FetchResults(statement, Bounds(filedAfter, filedBefore), api);
    if fetched.Failure? {
      return Failure(fetched.error), queries, lookups;
    }
    var results := fetched.value;

    // Process the results.
    var n := Limit(maxResults, |results|);
    var prepared;
    prepared, lookups := PrepareResults(results, n, baseUrl, opinions, toText);
    outcome := Success(prepared);
  }

  /** The loop of lines 120-163 over the first `n` upstream results. */
  method PrepareResults(results: seq<Metadata>, n: nat, baseUrl: string, opinions: Value -> OpinionReply,
                        toText: string -> string)
    returns (prepared: seq<Opinion>, lookups: seq<Value>)
    requires n <= |results|
    ensures prepared == Prepared(results, n, baseUrl, opinions, toText)
    ensures lookups == Lookups(results, n)
  {
    prepared, lookups := [], [];
    for i := 0 to n
      invariant prepared == Prepared(results, i, baseUrl, opinions, toText)
      invariant lookups == Lookups(results, i)
    {
      var metadata := results[i];
      assert Lookups(results, i + 1) == lookups + (match LookupFor(metadata) case Some(id) => [id] case None => []);
      assert Prepared(results, i + 1, baseUrl, opinions, toText)
             == prepared + Emit(ProcessEntry(metadata, i, baseUrl, opinions, toText));
      if !HasRequiredFields(metadata) {
        continue;
      }
      var opinionId := if Truthy(Get(metadata, "id")) then Get(metadata, "id") else Get(metadata, "cluster_id");
      if !Truthy(opinionId) {
        continue;
      }
      var opinion := ResultsDataFormat;
      opinion := opinion.(id := opinionId, caseName := metadata["caseName"], court := metadata["court"]);
      if !metadata["absolute_url"].Str? {
        continue;
      }
      opinion := opinion.(absoluteUrl := baseUrl + metadata["absolute_url"].s);
      opinion := opinion.(status := metadata["status"], dateFiled := metadata["dateFiled"]);

      assert LookupFor(metadata) == Some(opinion.id);
      lookups := lookups + [opinion.id];
      var detail := opinions(opinion.id);
      if detail.OpinionFailed? {
        continue;
      }
      var entries := if detail.results.Some? then detail.results.value else [map[]];
      if entries == [] {
        continue;
      }
      var html := if "html" in entries[0] then entries[0]["html"] else Str("");
      if !html.Str? {
        continue;
      }
      opinion := opinion.(text := toText(html.s));

      if !opinion.dateFiled.Str? {
        continue;
      }
      var year := Take(opinion.dateFiled.s, 4);
      opinion := opinion.(promptText := PromptText(i + 1, opinion.caseName, year, opinion.court, opinion.absoluteUrl));
      opinion := opinion.(uiText := UiText(i + 1, opinion.caseName, year, opinion.court));
      opinion := opinion.(uiUrl := opinion.absoluteUrl);

      prepared := prepared + [opinion];
    }
  }

  /** The try block of lines 66-117: the primary search, the retry, and the check for "results". */
  method FetchResults(statement: string, bounds: Bounds, api: SearchQuery -> SearchReply)
    returns (queries: seq<SearchQuery>, results: Result<seq<Metadata>, string>)
    ensures Fetched(queries, results) == Fetch(statement, bounds, api)
  {
    queries := [];
    // First attempt.
    var primary := SearchQuery(statement, bounds.filedAfter, bounds.filedBefore);
    queries := queries + [primary];
    var response := api(primary);
    if response.TransportError? {
      return queries, Failure(FetchError(response.reason));
    }
    if response.status != 200 {
      return queries, Failure(FetchError(ApiErrorMessage(response.status, response.text)));
    }
    if response.body.NotJson? {
      return queries, Failure(FetchError(response.body.error));
    }
    var rawText, rawResults := response.text, response.body.results;

    // Keyword-only retry when there is nothing to show.
    if NeedsRetry(rawResults) {
      var retry := SearchQuery(FallbackQuery(statement), bounds.filedAfter, bounds.filedBefore);
      queries := queries + [retry];
      var retryResponse := api(retry);
      if retryResponse.TransportError? {
        return queries, Failure(FetchError(retryResponse.reason));
      }
      if retryResponse.status == 200 {
        if retryResponse.body.NotJson? {
          return queries, Failure(FetchError(retryResponse.body.error));
        }
        rawText, rawResults := retryResponse.text, retryResponse.body.results;
      }
    }
    if rawResults.None? {
      return queries, Failure(FetchError(MissingResultsMessage(rawText)));
    }
    results := Success(rawResults.value);
  }
}
