# olaw search core in Dafny

This project models the search core of olaw, a legal research assistant.

- **CourtListener search.** `CourtListener.search` refuses statements that use a stoplist word. It reads an optional `dateFiled:[… TO …]` range out of the statement and queries the CourtListener search endpoint. When nothing comes back it retries once with a keyword-only query. It then turns each upstream result into a fixed-shape opinion record, fetching the opinion's text from the opinions endpoint.
- **`[POST] /api/search`.** The handler validates the request, pre-fills the output with one empty list per search target, runs the search, and sorts failures into client errors (400) and unexpected errors (500).
- **`[POST] /api/extract-search-statement`.** The handler validates the message and the temperature, and rewrites `vs`, `vs.` and `versus` to `v.`. It picks a default model and sends the prompt to OpenAI or Ollama. It accepts the reply only in a fixed shape.
- **`check_env`.** The start-up check of the required environment variables.

Both endpoints and the completion provider are modelled as functions from a request to its reply. The same holds for the HTML-to-text conversion, `float()` and the router.

- **Handlers.** Each handler is a method written step by step like the source. It is proved equal to a specification function, and lemmas prove the properties of that function.
- **Search.** The search's step-by-step parts are methods in the same style: the try block, the retry and the result loop with its `continue`s. Each of them returns every request it made, so "no request before the stoplist check" and "the retry is sent exactly when …" can be stated.

Files:

- `wrappers.dfy`: `Option` and `Result`.
- `json_values.dfy`: the JSON values a request carries. It also gives Python truthiness and Python `str()` on them.
- `strings.dfy`: Python string operations: `strip`, `split`, `lower`, `\w+` tokenising, `join`, `in`, `replace` and integer formatting.
- `courtlistener.dfy` and `courtlistener_properties.dfy`: the search target.
- `search_view.dfy`: `post_search`.
- `extract_view.dfy`: `post_extract_search_statement`.
- `check_env.dfy`: `check_env`.

Citations are numbered `i + 1` with `i` the raw upstream index, so the numbering has gaps when entries are skipped (`CourtListenerProperties.NumberingKeepsGaps`).

## Model

| member | source | states |
|---|---|---|
| CourtListener.Search | olaw/search_targets/courtlistener.py:34-166 | the search, step by step, yields exactly the outcome, the search requests and the opinion lookups of SearchSpec |
| CourtListener.FetchResults | olaw/search_targets/courtlistener.py:66-117 | the try block issues the primary request, the retry when it is due, and yields the upstream results or the wrapped error, as Fetch |
| CourtListener.PrepareResults | olaw/search_targets/courtlistener.py:119-163 | the loop over the first n results yields the records Prepared and the opinion lookups of Lookups |
| CourtListener.SearchSpec | olaw/search_targets/courtlistener.py:34-166 | the whole search as a value: stoplist refusal, bounds, the try block, then the loop over the window. Its properties: CourtListenerProperties.ProhibitedTermRejectedBeforeAnyRequest, RequestMadeIffNoProhibitedWord, PrimaryResultsProcessed, RetryResultsProcessed, OutputBound, KeptEntriesReturned |
| CourtListener.Fetch | olaw/search_targets/courtlistener.py:66-117 | the try block as a value: the requests sent and the list or wrapped error. Its properties: CourtListenerProperties.FetchQueries, RetryExactlyWhenNothingFound, PrimaryStatusIsFatal, FailedRetryKeepsPrimaryBody, FetchPrimaryFound, FetchRetryFound |
| CourtListener.FallbackQuery | olaw/search_targets/courtlistener.py:90-91 | the statement's `[a-zA-Z0-9 ]` characters, split on whitespace, joined by " AND ". Its properties: CourtListenerProperties.FallbackQueryAlphabet, FallbackQueryWords |
| CourtListener.ProhibitedFound | olaw/search_targets/courtlistener.py:47-49 | the stoplist terms among the lower-cased statement's `\w+` words. Its properties: CourtListener.FoundTerms, CourtListenerProperties.ProhibitedFoundSplit, StoplistWordAnywhere, WholeWordsOnly, CaseIgnored |
| CourtListener.OpinionText | olaw/search_targets/courtlistener.py:152-153 | the converted `html` of the first detail result, the empty html when it has none; no text when the request fails, the list is empty or the html is not a string. Its properties: CourtListener.KeptRecord, CourtListenerProperties.EmptyDetailSkipsEntry |
| CourtListener.Prepared | olaw/search_targets/courtlistener.py:119-163 | the records the loop makes of the first n entries, in order. Its properties: CourtListenerProperties.PreparedFromAccepted, PreparedLength, RecordsLookedUp |
| CourtListener.Lookups | olaw/search_targets/courtlistener.py:131-150 | the ids the loop sends to the opinions endpoint, one per entry that has the five fields and a truthy id. Its properties: CourtListenerProperties.LookupsCoverRecords, RecordsLookedUp |
| CourtListener.Accepted | olaw/search_targets/courtlistener.py:120-163 | the raw positions whose entries the loop keeps. Its properties: CourtListenerProperties.AcceptedInOrder, AcceptedIffKept |
| CourtListener.FoundTerms | olaw/search_targets/courtlistener.py:47-49 | a term is reported exactly when it is both on the stoplist and among the statement's words |
| CourtListener.Quoted | olaw/search_targets/courtlistener.py:50 | each found term is rendered between single quotes, in order, one rendering per term |
| CourtListener.FirstAt | olaw/search_targets/courtlistener.py:57-58 | the first element of `re.findall` is the leftmost position where the pattern matches, and there is none when it matches nowhere |
| CourtListener.DateRange | olaw/search_targets/courtlistener.py:54-60 | no bounds without "dateFiled"; `filed_before` only with `filed_after`; every bound is a `YYYY/MM/DD` date. When neither pattern matches, both bounds stay unset (CourtListenerProperties.StartBoundIffMarker) |
| CourtListener.ProcessEntry | olaw/search_targets/courtlistener.py:121-163 | an entry is skipped for missing fields exactly when one of the five keys is absent. It is kept exactly when it has a truthy id, a usable detail text and a string date |
| CourtListener.KeptRecord | olaw/search_targets/courtlistener.py:131-159 | a kept record has the truthy id that was looked up and copies the entry's fields. Its URL is base_url plus the entry's path, ui_url is that URL, and its text is the converted detail text. prompt_text is `[i+1] case (year) court, as sourced from url:` and ui_text is `[i+1] case (year), court`, with the year the first four characters of the date |
| CourtListener.PromptTextCites | olaw/search_targets/courtlistener.py:155 | the prompt citation of entry n opens with "[n] " |
| CourtListener.Limit | olaw/search_targets/courtlistener.py:120 | the loop runs exactly `min(max_results, len(results))` times, and not at all when max_results <= 0 |
| CourtListenerProperties.ProhibitedMessageTag | olaw/search_targets/courtlistener.py:50-52 | the refusal message contains "prohibited terms" |
| CourtListenerProperties.ApiErrorTag | olaw/search_targets/courtlistener.py:81-117 | a non-200 status becomes, after wrapping, a message containing "CourtListener API error" |
| CourtListenerProperties.MissingResultsTag | olaw/search_targets/courtlistener.py:112-117 | a body without "results" becomes, after wrapping, a message containing "missing 'results'" |
| CourtListenerProperties.ProhibitedTermRejectedBeforeAnyRequest | olaw/search_targets/courtlistener.py:46-52 | a stoplist word in the statement fails the search with no search request and no lookup, and the message names the word in quotes |
| CourtListenerProperties.RequestMadeIffNoProhibitedWord | olaw/search_targets/courtlistener.py:46-79 | a search request is made exactly when no word of the statement is on the stoplist |
| CourtListenerProperties.StatementWordsSplit | olaw/search_targets/courtlistener.py:48 | the words of two statements joined by a space are the words of each, in turn |
| CourtListenerProperties.ProhibitedFoundSplit | olaw/search_targets/courtlistener.py:47-49 | a term is found in two statements joined by a space exactly when it is found in one of them |
| CourtListenerProperties.NoneFound | olaw/search_targets/courtlistener.py:49 | the intersection is empty when no stoplist term is among the words |
| CourtListenerProperties.WholeWordsOnly | olaw/search_targets/courtlistener.py:48-49 | "lawyer" does not trigger the check: matching is by whole word |
| CourtListenerProperties.CaseIgnored | olaw/search_targets/courtlistener.py:48 | "Cases" triggers the check for "cases": the statement is lower-cased |
| CourtListenerProperties.StoplistTermsAreWords | olaw/search_targets/courtlistener.py:47-48 | every stoplist term is a single non-empty `\w+` word, so it can be matched |
| CourtListenerProperties.StoplistWordAnywhere | olaw/search_targets/courtlistener.py:47-49 | a stoplist term written in any ASCII case, as a word between spaces anywhere in the statement, is found |
| CourtListenerProperties.WordAnywhere | olaw/search_targets/courtlistener.py:48 | a word between spaces is one of the statement's words, lower-cased |
| CourtListenerProperties.MarkerDoesNotOverlap | olaw/search_targets/courtlistener.py:57 | two occurrences of "dateFiled:[" cannot overlap |
| CourtListenerProperties.NoMarkerBefore | olaw/search_targets/courtlistener.py:55-57 | when "dateFiled" does not occur before a marker, no marker starts before it |
| CourtListenerProperties.FirstAtIs | olaw/search_targets/courtlistener.py:57-58 | the first match is the first position where the pattern holds |
| CourtListenerProperties.DateRangeAt | olaw/search_targets/courtlistener.py:55-58 | when both patterns first match at the same marker, the bounds are its two dates with `-` replaced by `/` |
| CourtListenerProperties.RangeMarkerMatches | olaw/search_targets/courtlistener.py:57-58 | a well-formed range marker matches both patterns where it starts |
| CourtListenerProperties.DateRangeOfMarker | olaw/search_targets/courtlistener.py:54-60 | a statement whose first "dateFiled" is `dateFiled:[d1 TO d2]` gets `filed_after` d1 and `filed_before` d2, slashed |
| CourtListenerProperties.MarkerFirst | olaw/search_targets/courtlistener.py:55-58 | a marker with no "dateFiled" before it makes the statement contain "dateFiled", and neither pattern matches before it |
| CourtListenerProperties.OpenMarkerMatches | olaw/search_targets/courtlistener.py:57 | an opening marker `dateFiled:[d1 TO` matches the first pattern where it starts |
| CourtListenerProperties.DateRangeStartOnly | olaw/search_targets/courtlistener.py:56-60 | when only the first pattern matches, `filed_after` stays set and `filed_before` stays unset |
| CourtListenerProperties.OpenEndedRange | olaw/search_targets/courtlistener.py:54-60 | a first "dateFiled" of the form `dateFiled:[d1 TO` followed by text that neither closes the range with `DATE]` nor holds a later complete range marker (such as `*]…`) sets only `filed_after`, and raises no error |
| CourtListenerProperties.FirstAtAbsent | olaw/search_targets/courtlistener.py:57-58 | a pattern that matches nowhere has no first match, so `[0]` raises |
| CourtListenerProperties.NoMarkerInsideOpening | olaw/search_targets/courtlistener.py:57-58 | no "dateFiled:[" starts strictly inside `dateFiled:[DATE TO ` |
| CourtListenerProperties.RangeMarkerShift | olaw/search_targets/courtlistener.py:58 | whether the second pattern matches at a position is unaffected by text put before it |
| CourtListenerProperties.RangeAtOpening | olaw/search_targets/courtlistener.py:58 | the second pattern matches at an opening marker only when the text after it closes the range with `DATE]` |
| CourtListenerProperties.OpenTailNoRange | olaw/search_targets/courtlistener.py:57-58 | from an opening marker whose tail neither closes nor holds a range, the second pattern matches nowhere |
| CourtListenerProperties.StartBoundIffMarker | olaw/search_targets/courtlistener.py:54-60 | `filed_after` is set exactly when the first pattern matches somewhere; when it matches nowhere both bounds stay unset |
| CourtListenerProperties.SlashedIsoDate | olaw/search_targets/courtlistener.py:57-58 | a matched `YYYY-MM-DD` date is sent as `YYYY/MM/DD` |
| CourtListenerProperties.FilterAllChars | olaw/search_targets/courtlistener.py:90 | removing the characters outside a class leaves only characters of the class |
| CourtListenerProperties.TokensInherit | olaw/search_targets/courtlistener.py:91 | every word of a string drawn from a class is drawn from that class |
| CourtListenerProperties.FilterKeywordsThenSpaces | olaw/search_targets/courtlistener.py:90-91 | without its spaces, the sanitised statement is the statement's ASCII letters and digits in order |
| CourtListenerProperties.FallbackQueryAlphabet | olaw/search_targets/courtlistener.py:90-91 | the fallback query holds only characters of `[a-zA-Z0-9 ]` |
| CourtListenerProperties.FallbackQueryWords | olaw/search_targets/courtlistener.py:90-91 | the fallback query is its words joined by " AND ". The words are non-empty and alphanumeric, and put together they are the statement's letters and digits in order |
| CourtListenerProperties.RetryExactlyWhenNothingFound | olaw/search_targets/courtlistener.py:66-104 | the primary request carries the statement and bounds. The retry is sent exactly when a 200 reply lacks "results" or has none, and it carries the same bounds |
| CourtListenerProperties.FetchQueries | olaw/search_targets/courtlistener.py:66-104 | the try block sends the primary request with the given bounds, then the keyword-only retry with the same bounds exactly when the primary 200 reply lacks "results" or has none |
| CourtListenerProperties.PrimaryStatusIsFatal | olaw/search_targets/courtlistener.py:81-117 | a non-200 primary reply fails the search after one request, with "CourtListener API error" in the message |
| CourtListenerProperties.FailedRetryKeepsPrimaryBody | olaw/search_targets/courtlistener.py:106-113 | a failed retry keeps the primary body: `{"results": []}` then gives an empty list, and a body without "results" gives the missing-results error |
| CourtListenerProperties.RetryWithoutResultsIsFatal | olaw/search_targets/courtlistener.py:106-117 | a 200 retry whose body has no "results" fails the search with "missing 'results'" and no lookups |
| CourtListenerProperties.PrimaryResultsProcessed | olaw/search_targets/courtlistener.py:66-120 | a 200 primary reply with a non-empty "results" list is the list the loop processes, over its first `min(max_results, len)` entries, with one search request and no retry |
| CourtListenerProperties.RetryResultsProcessed | olaw/search_targets/courtlistener.py:84-120 | when the primary 200 reply found nothing, the "results" list of a 200 retry is the list the loop processes, after exactly the two search requests |
| CourtListenerProperties.FetchPrimaryFound | olaw/search_targets/courtlistener.py:66-87 | the try block keeps a non-empty primary list after one request |
| CourtListenerProperties.FetchRetryFound | olaw/search_targets/courtlistener.py:84-112 | the try block takes the list of a 200 retry, after the primary and the fallback request |
| CourtListenerProperties.SearchOfFetched | olaw/search_targets/courtlistener.py:112-166 | once the try block has produced a list, the search answers the loop over its window, with the loop's lookups |
| CourtListenerProperties.RetryFindsOne | olaw/search_targets/courtlistener.py:84-159 | a primary `{"results": []}` followed by a retry with one usable match gives exactly that one record |
| CourtListenerProperties.PreparedFromAccepted | olaw/search_targets/courtlistener.py:120-163 | record j is what the loop made of the entry at the j-th accepted raw position |
| CourtListenerProperties.AcceptedInOrder | olaw/search_targets/courtlistener.py:120-163 | the accepted positions are in range and strictly increasing, so records keep the upstream order |
| CourtListenerProperties.AcceptedIffKept | olaw/search_targets/courtlistener.py:120-163 | a position is accepted exactly when its own entry is kept; a skipped entry does not stop later ones |
| CourtListenerProperties.PreparedLength | olaw/search_targets/courtlistener.py:120-159 | at most one record per processed entry |
| CourtListenerProperties.LookupsCoverRecords | olaw/search_targets/courtlistener.py:131-150 | there are no more records than lookups, at most one lookup per entry, and every looked-up id is truthy |
| CourtListenerProperties.RecordsLookedUp | olaw/search_targets/courtlistener.py:131-159 | the id of every record is among the ids requested from the opinions endpoint |
| CourtListenerProperties.KeptEntriesReturned | olaw/search_targets/courtlistener.py:120-166 | every entry within the first `min(max_results, len(results))` that the loop keeps is in the search's answer |
| CourtListenerProperties.OutputBound | olaw/search_targets/courtlistener.py:120 | a successful search returns at most len(results) and at most max_results records, and none when max_results <= 0 |
| CourtListenerProperties.NumberingKeepsGaps | olaw/search_targets/courtlistener.py:155-156 | when the first entry is skipped and the second kept, the only record is cited as "[2]" |
| CourtListenerProperties.EmptyDetailSkipsEntry | olaw/search_targets/courtlistener.py:152-163 | a detail reply whose "results" is empty makes the loop skip that entry |
| SearchView.PostSearchSpec | olaw/views/api/search.py:30-77 | the handler as a value: validation, then the search and its classification. Its properties: SearchView.SearchRunsOnlyIfValid, OutputHasEveryTarget, OnlySuccessAnswers200 |
| SearchView.ValidationError | olaw/views/api/search.py:40-55 | the first failing check's message, or none. Its properties: SearchView.ValidationLadder |
| SearchView.IsClientError | olaw/views/api/search.py:65-69 | a message naming "prohibited terms", "missing 'results'" or "CourtListener API error". Its properties: SearchView.FailureClassification, ProhibitedStatementIsClientError, ApiStatusIsClientError |
| SearchView.PostSearch | olaw/views/api/search.py:13-77 | the handler, step by step, answers exactly the status and body of PostSearchSpec, and searches with it |
| SearchView.Answer | olaw/views/api/search.py:58-77 | once the search has returned, 200 is answered exactly when it succeeded, and exactly then the body holds results |
| SearchView.ValidationLadder | olaw/views/api/search.py:40-55 | the five checks run in order, each answering its own message: no statement, blank statement, no target, blank target, unknown target (with the targets joined by ", "). The input passes exactly when both fields are present and non-blank after strip and the target is known |
| SearchView.SearchRunsOnlyIfValid | olaw/views/api/search.py:40-59 | the search runs exactly when the checks pass, with the stripped target and statement; otherwise the answer is a 400 error |
| SearchView.OutputHasEveryTarget | olaw/views/api/search.py:35-77 | a successful search answers 200 with a key for every target. The chosen target holds the results and the others the empty list |
| SearchView.SuccessOutput | olaw/views/api/search.py:36-59 | the pre-filled output with the chosen target replaced has every target as a key, and only the chosen one changed |
| SearchView.OnlySuccessAnswers200 | olaw/views/api/search.py:58-77 | 200 is answered exactly when the body is results, and exactly when the search ran and succeeded |
| SearchView.FailureClassification | olaw/views/api/search.py:61-75 | a failure answers 400 with its own message exactly when it names one of the three client errors, and 500 with the generic message otherwise |
| SearchView.ProhibitedStatementIsClientError | olaw/views/api/search.py:61-71 | through the CourtListener search, a stoplist word is answered 400 with the word in the message |
| SearchView.ApiStatusIsClientError | olaw/views/api/search.py:61-71 | through the CourtListener search, a non-200 primary reply is answered 400 with "CourtListener API error" |
| ExtractView.Rewrite | olaw/views/api/extract_search_statement.py:62 | the left-to-right `re.sub` scan, replacing each word-bounded match by "v.". Its properties: ExtractView.RewriteSplits, RewriteWithoutV, VersusBecomesV, WordBeforeSpace, VsBeforePeriod, VsPeriodBeforeWord |
| ExtractView.NormalizeVersus | olaw/views/api/extract_search_statement.py:62 | the rewrite of the whole message. Its properties: ExtractView.PartiesAroundVersus, VsPeriodKeepsPeriod |
| ExtractView.MatchLength | olaw/views/api/extract_search_statement.py:62 | the match of the word-bounded `vs`, `vs.` or `versus` pattern at a position has length 0, 2, 3 or 6 and fits in the string |
| ExtractView.MatchesAtStops | olaw/views/api/extract_search_statement.py:62 | a character compared before a separator is unaffected by what follows it |
| ExtractView.BoundaryStops | olaw/views/api/extract_search_statement.py:62 | a word boundary before a separator is unaffected by what follows it |
| ExtractView.MatchLengthStops | olaw/views/api/extract_search_statement.py:62 | no match runs across a separator |
| ExtractView.RewriteSplits | olaw/views/api/extract_search_statement.py:62 | the rewrite splits at a separator: each side is rewritten on its own |
| ExtractView.RewriteWithoutV | olaw/views/api/extract_search_statement.py:62 | a text without a `v` or `V` is left unchanged |
| ExtractView.MatchesWord | olaw/views/api/extract_search_statement.py:62 | a word whose lower-cased form is the pattern matches it character by character, ignoring case |
| ExtractView.VersusBecomesV | olaw/views/api/extract_search_statement.py:62 | a space-delimited "versus" or "vs", in any case, becomes "v.", and the text around it is rewritten separately |
| ExtractView.WordBeforeSpace | olaw/views/api/extract_search_statement.py:62 | a "versus" or "vs" followed by a space is rewritten to "v." and the rest separately |
| ExtractView.VsPeriodKeepsPeriod | olaw/views/api/extract_search_statement.py:62 | in "A vs. B" only "vs" matches, giving "A v.. B" |
| ExtractView.VsBeforePeriod | olaw/views/api/extract_search_statement.py:62 | "vs" followed by a period and a space becomes "v." with the period and the space kept |
| ExtractView.VsPeriodBeforeWord | olaw/views/api/extract_search_statement.py:62 | "vs." directly followed by a word character is replaced whole by "v." |
| ExtractView.PartiesAroundVersus | olaw/views/api/extract_search_statement.py:62 | "X versus Y" and "X vs Y" become "X v. Y" when the parties have no `v` |
| ExtractView.ExtractSpec | olaw/views/api/extract_search_statement.py:46-139 | the handler as a value: the request checks, then the dispatch. Its properties: ExtractView.MessageCheckedFirst, ChecksThenDispatch, CompletionRequestedOnlyWhenValid, DefaultOpenAIRequest, DefaultOllamaRequest |
| ExtractView.ChosenModel | olaw/views/api/extract_search_statement.py:76-83 | the given model, else the default for the configured provider, else none. Its properties: ExtractView.DefaultModel, ModelCheck |
| ExtractView.ProviderFor | olaw/views/api/extract_search_statement.py:90-121 | OpenAI when the model starts with "openai" or OPENAI_API_KEY is set, else Ollama when it starts with "ollama" or OLLAMA_API_URL is set, else none. Its properties: ExtractView.ProviderChoice, OllamaModelWithOpenAIKey |
| ExtractView.ProviderModel | olaw/views/api/extract_search_statement.py:94-112 | the model name with every occurrence of the chosen provider's prefix (`openai/` or `ollama/`) removed, as `str.replace` does. Its properties: ExtractView.OpenAIPrefixRemoved, OllamaDefaultName |
| ExtractView.IsValidOutput | olaw/views/api/extract_search_statement.py:128-133 | the parsed output has exactly the two keys, each a string or null. Its properties: ExtractView.ValidOutputShape, OutputAcceptedIffWellShaped |
| ExtractView.Dispatch | olaw/views/api/extract_search_statement.py:89-139 | provider choice, the completion call and the output check as a value. Its properties: ExtractView.DispatchOutcome, RunCompletion |
| ExtractView.PostExtractSearchStatement | olaw/views/api/extract_search_statement.py:46-139 | the handler, step by step, answers exactly the status and body of ExtractSpec and makes exactly its completion request |
| ExtractView.RunCompletion | olaw/views/api/extract_search_statement.py:89-139 | provider choice, the call and the output check answer as Dispatch |
| ExtractView.ValidOutputShape | olaw/views/api/extract_search_statement.py:128-137 | the output check passes exactly when the keys are "search_statement" and "search_target" and each value is a string or null |
| ExtractView.MessageCheckedFirst | olaw/views/api/extract_search_statement.py:54-59 | a missing message and a blank message are answered 400 first, with no completion request |
| ExtractView.ModelCheck | olaw/views/api/extract_search_statement.py:76-86 | the model checks pass exactly when a model was chosen and it is the name of an available model |
| ExtractView.RequestError | olaw/views/api/extract_search_statement.py:54-86 | when no check fails, the message is present, the temperature parses, and the model checks pass |
| ExtractView.RequestAccepted | olaw/views/api/extract_search_statement.py:54-86 | the request passes the checks exactly when the message is non-blank, the temperature parses to a value >= 0 or is absent, and the chosen model is an available name |
| ExtractView.DispatchOutcome | olaw/views/api/extract_search_statement.py:89-139 | there is a request exactly when a provider is chosen. It carries that provider, the model without its prefix, the temperature and the prompt. 200 with the output is answered exactly when the reply is a well-shaped object, and 500 otherwise |
| ExtractView.ChecksThenDispatch | olaw/views/api/extract_search_statement.py:54-89 | a failed check answers 400 with its message and no request; a passing request is dispatched with its model, temperature and prompt |
| ExtractView.CompletionRequestedOnlyWhenValid | olaw/views/api/extract_search_statement.py:54-96 | a completion is requested only after every check passes. The prompt ends with the stripped, rewritten message, and the temperature is the one given, or 0 |
| ExtractView.DefaultModel | olaw/views/api/extract_search_statement.py:76-83 | with no model given, the default is "openai/gpt-4" when OPENAI_API_KEY is set, else "ollama/mistral" when OLLAMA_API_URL is set, else 400 with no request |
| ExtractView.ProviderChoice | olaw/views/api/extract_search_statement.py:89-112 | OpenAI is called exactly when the model starts with "openai" or OPENAI_API_KEY is set. Ollama is called at OLLAMA_API_URL or at the local default. The model name loses its provider prefix |
| ExtractView.OpenAIPrefixRemoved | olaw/views/api/extract_search_statement.py:94 | "openai/" + name is sent to OpenAI as name |
| ExtractView.DefaultOpenAIRequest | olaw/views/api/extract_search_statement.py:76-99 | with no model and OPENAI_API_KEY set, OpenAI is asked for "gpt-4" at temperature 0 with the prompt |
| ExtractView.DefaultOllamaRequest | olaw/views/api/extract_search_statement.py:76-112 | with no model and only OLLAMA_API_URL set, that host is asked for "mistral" at temperature 0 with the prompt |
| ExtractView.OllamaDefaultName | olaw/views/api/extract_search_statement.py:103-112 | "ollama/mistral" does not start with "openai" and is sent to Ollama as "mistral" |
| ExtractView.OllamaModelWithOpenAIKey | olaw/views/api/extract_search_statement.py:90-94 | an "ollama…" model goes to OpenAI, under its full name, whenever OPENAI_API_KEY is set |
| ExtractView.OutputAcceptedIffWellShaped | olaw/views/api/extract_search_statement.py:128-139 | a 200 carries the provider's object, which has exactly the two keys with string or null values; a completed call answers 200 exactly when its output has that shape |
| EnvCheck.Missing | olaw/utils/check_env.py:24 | the required names that are unset or blank after strip, in declared order. Its properties: EnvCheck.MissingFrom, MissingMembers, MissingConcat, NothingMissingIffAllSet |
| EnvCheck.CheckEnv | olaw/utils/check_env.py:18-35 | true when nothing is missing; otherwise the message, raised when strict and false when not. `strict` defaults to true. Its properties: EnvCheck.CheckEnvTrueIffComplete, LenientNeverRaises, StrictNamesMissing |
| EnvCheck.MissingFrom | olaw/utils/check_env.py:24 | the missing list is no longer than the list of required names |
| EnvCheck.MissingMembers | olaw/utils/check_env.py:24 | a name is reported exactly when it is required and unset or blank after strip |
| EnvCheck.MissingConcat | olaw/utils/check_env.py:24 | the missing names keep the declared order: those of a concatenation are those of each part, in turn |
| EnvCheck.NothingMissingIffAllSet | olaw/utils/check_env.py:24-26 | nothing is reported exactly when every required name holds a non-blank value |
| EnvCheck.MessageNamesEach | olaw/utils/check_env.py:27 | the message opens with the warning text and contains every missing name |
| EnvCheck.MessageNamesBlank | olaw/utils/check_env.py:24-27 | every required name that is blank appears in the message |
| EnvCheck.CheckEnvTrueIffComplete | olaw/utils/check_env.py:26-35 | the check answers true, in either mode, exactly when no required variable is blank |
| EnvCheck.LenientNeverRaises | olaw/utils/check_env.py:26-32 | without strict the check never raises, and answers false exactly when something is missing |
| EnvCheck.StrictNamesMissing | olaw/utils/check_env.py:18-29 | a check with the default `strict`, on an incomplete environment, raises a message that opens with the warning text and names every blank required variable |

## Left out

- **External calls.** HTTP requests are modelled as functions from the request to a reply. These replies are the search and opinions endpoints, the transport errors `requests.get` raises, and `response.json()`. The endpoint URL, the token header, the timeout and the constant parameters `type=o` and `order=score desc` are not recorded.
- **External libraries.** `html2text` is a parameter `string -> string`, and `json.loads` of the completion content is part of the provider reply. The OpenAI and Ollama clients are one parameter, from a completion request to its reply.
- **Logging and printing.** Logging and the two `print` calls of `check_env` are output only and are not modelled.
- **Environment.** `os.environ` is a map from names to values. The CourtListener configuration (`base_url`, `max_results`) is passed in as parameters: the failure of `int()` and a missing variable are not modelled.
- **Flask.** Flask routing, `jsonify`, the rate limiter and HTTP status codes beyond the returned integer are not modelled. A request body that is not a JSON object is not modelled either.
- **Parameters for code not shown.** The target list, `route_search` and `list_available_models` are parameters, because their code is not part of this model. The model lists are assumed to hold strings.
- **Temperature.** `float()` on the temperature is a parameter `Value -> Option<real>`: NaN, infinities and rounding are not modelled.
- **JSON values.** They are null, booleans, integers and strings. Floats, lists and objects in a request field, and their `str()`, are not modelled.
- **Prompt text.** The prompt text (EXTRACT_SEARCH_STATEMENT_PROMPT) is a parameter rather than a constant; the model fixes only how the message is appended to it.
- **Text matching.** `\w`, `str.lower()` and `re.IGNORECASE` are modelled on ASCII. Python's Unicode rules (letters outside ASCII, the folding of `ſ` and the Kelvin sign) are not. `strip()` and `split()` use Python's full whitespace set.
- **Repeated requests.** Each endpoint is a pure function of the request, so identical requests get identical replies. For a one-word statement such as "Kramer", whose fallback query equals the statement, the retry therefore gets the primary reply again; a real second request could answer differently.
- **Reply shapes.** A search or detail reply is modelled as a parse failure or as an object whose "results" is absent or a list of objects with scalar values. Other shapes cannot be represented, so these paths are not modelled:
  - a "results" that is present but null;
  - a "results" of another type, such as `{"results": 5}`: it is truthy, so no retry is sent, and `len()` at the loop header then raises outside the try block, unwrapped;
  - a body that is not an object, such as a list, which raises inside the try block;
  - result entries that are not objects, which the loop skips by exception.
- **Other files.** `patch_courtlistener.py`, a one-off script that edits a file on disk, is not part of this model. Neither is `olaw/views/api/models.py`, a wrapper over a helper that is not shown.
- CourtListener.ProhibitedMessage: renders the set of found terms in stoplist order, because Python's set order depends on string hashing.
- CourtListener.MissingResultsMessage: uses the reply's text where the source prints `str()` of the parsed body, because the model keeps only the "results" list of that body.
- ExtractView.RunCompletion: the "Could not run completion" message uses the model name unconditionally. The source's fallback `'default provider'` applies only to an empty model, which cannot reach that line.
