/**
 * The `[POST] /api/search` handler: a ladder of input checks, an output
 * object with one empty list per search target, one call of the chosen
 * target, and the classification of its failure into 400 or 500.
 *
 * The list of targets and the routing of a statement to a target are
 * parameters; the JSON body is a map from keys to values.
 */
module SearchView {
  import opened Wrappers
  import opened JsonValues
  import opened Strings
  import opened CourtListener
  import opened CourtListenerProperties

  /** The JSON object sent back: an error, or the results by target. */
  datatype SearchBody = ErrorBody(error: string) | Results(output: map<string, seq<Opinion>>)

  /** The status, the body, and the (target, statement) the search was run with, if it was run. */
  datatype Response = Response(status: int, body: SearchBody, searched: Option<(string, string)>)

  /** The output object before the search: every target mapped to the empty list. */
  function InitialOutput(targets: seq<string>): map<string, seq<Opinion>> {
    map t | t in targets :: []
  }

  /** `str(input[key]).strip()` */
  function StrippedField(input: map<string, Value>, key: string): string
    requires key in input
  {
    Strip(Render(input[key]))
  }

  /** The first check of lines 40-55 that fails, with the message it answers with. */
  function ValidationError(input: map<string, Value>, targets: seq<string>): Option<string> {
    if "search_statement" !in input then Some("No search statement provided.")
    else if StrippedField(input, "search_statement") == [] then Some("Search statement cannot be empty.")
    else if "search_target" !in input then Some("No search target provided.")
    else if StrippedField(input, "search_target") == [] then Some("Search target cannot be empty.")
    else if StrippedField(input, "search_target") !in targets then
      Some("Search target can only be: " + Join(targets, ", ") + ".")
    else None
  }

  /** The failures reported back to the client as they are (lines 65-71). */
  predicate IsClientError(message: string) {
    || Contains(message, "prohibited terms")
    || Contains(message, "missing 'results'")
    || Contains(message, "CourtListener API error")
  }

  function UnexpectedError(target: string): string {
    "Could not search for court opinions on " + target + "."
  }

  /** The status and body answered once the search for `target` has returned `outcome`. */
  function Answer(targets: seq<string>, target: string, outcome: Result<seq<Opinion>, string>): (r: (int, SearchBody))
    ensures r.0 == 200 <==> outcome.Success?
    ensures r.0 == 200 <==> r.1.Results?
  {
    match outcome
    case Success(rs) => (200, Results(InitialOutput(targets)[target := rs]))
    case Failure(message) =>
      if IsClientError(message) then (400, ErrorBody(message)) else (500, ErrorBody(UnexpectedError(target)))
  }

  /** What the handler answers to `input`. */
  function PostSearchSpec(input: map<string, Value>, targets: seq<string>,
                          route: (string, string) -> Result<seq<Opinion>, string>): Response
  {
    match ValidationError(input, targets)
    case Some(e) => Response(400, ErrorBody(e), None)
    case None =>
      var statement := StrippedField(input, "search_statement");
      var target := StrippedField(input, "search_target");
      var answer := Answer(targets, target, route(target, statement));
      Response(answer.0, answer.1, Some((target, statement)))
  }

  /**
   * `post_search` with the parsed JSON body, the target list and the
   * router given as parameters.
   */
  method PostSearch(input: map<string, Value>, targets: seq<string>,
                    route: (string, string) -> Result<seq<Opinion>, string>)
    returns (status: int, body: SearchBody, searched: Option<(string, string)>)
    ensures Response(status, body, searched) == PostSearchSpec(input, targets, route)
  {
    var statement := "";
    var target := "";
    var output: map<string, seq<Opinion>> := map[];
    searched := None;

    // Initialize structure
    for k := 0 to |targets|
      invariant output == InitialOutput(targets[..k])
    {
      assert targets[..k + 1] == targets[..k] + [targets[k]];
      output := output[targets[k] := []];
    }
    assert targets[..|targets|] == targets;

    if "search_statement" !in input {
      return 400, ErrorBody("No search statement provided."), searched;
    }
    statement := Strip(Render(input["search_statement"]));
    if statement == [] {
      return 400, ErrorBody("Search statement cannot be empty."), searched;
    }
    if "search_target" !in input {
      return 400, ErrorBody("No search target provided."), searched;
    }
    target := Strip(Render(input["search_target"]));
    if target == [] {
      return 400, ErrorBody("Search target cannot be empty."), searched;
    }
    if target !in targets {
      return 400, ErrorBody("Search target can only be: " + Join(targets, ", ") + "."), searched;
    }

    searched := Some((target, statement));
    var outcome := route(target, statement);
    if outcome.Failure? {
      var message := outcome.error;
      if IsClientError(message) {
        return 400, ErrorBody(message), searched;
      }
      return 500, ErrorBody(UnexpectedError(target)), searched;
    }
    output := output[target := outcome.value];
    return 200, Results(output), searched;
  }

  // ---------------------------------------------------------------------------
  // Properties
  // ---------------------------------------------------------------------------

  /**
   * The checks run in a fixed order, each answering 400 with its own
   * message, and the input passes exactly when all five hold.
   */
  lemma ValidationLadder(input: map<string, Value>, targets: seq<string>)
    ensures "search_statement" !in input ==> ValidationError(input, targets) == Some("No search statement provided.")
    ensures "search_statement" in input && Strip(Render(input["search_statement"])) == []
            ==> ValidationError(input, targets) == Some("Search statement cannot be empty.")
    ensures "search_statement" in input && Strip(Render(input["search_statement"])) != [] && "search_target" !in input
            ==> ValidationError(input, targets) == Some("No search target provided.")
    ensures && "search_statement" in input && Strip(Render(input["search_statement"])) != []
            && "search_target" in input && Strip(Render(input["search_target"])) == []
            ==> ValidationError(input, targets) == Some("Search target cannot be empty.")
    ensures && "search_statement" in input && Strip(Render(input["search_statement"])) != []
            && "search_target" in input && Strip(Render(input["search_target"])) != []
            && Strip(Render(input["search_target"])) !in targets
            ==> ValidationError(input, targets) == Some("Search target can only be: " + Join(targets, ", ") + ".")
    ensures ValidationError(input, targets) == None
            <==> && "search_statement" in input && Strip(Render(input["search_statement"])) != []
                 && "search_target" in input && Strip(Render(input["search_target"])) != []
                 && Strip(Render(input["search_target"])) in targets
  {
  }

  /** The search runs only when every check passes, and with the stripped target and statement. */
  lemma SearchRunsOnlyIfValid(input: map<string, Value>, targets: seq<string>,
                              route: (string, string) -> Result<seq<Opinion>, string>)
    ensures var r := PostSearchSpec(input, targets, route);
            && (r.searched.Some? <==> ValidationError(input, targets) == None)
            && (r.searched.Some? ==> r.searched.value == (StrippedField(input, "search_target"),
                                                          StrippedField(input, "search_statement"))
                                     && r.searched.value.0 in targets && r.searched.value.1 != [])
            && (r.searched.None? ==> r.status == 400 && r.body.ErrorBody?)
  {
    match ValidationError(input, targets)
    case Some(e) =>
    case None =>
      var t, st := StrippedField(input, "search_target"), StrippedField(input, "search_statement");
      assert PostSearchSpec(input, targets, route).searched == Some((t, st));
  }

  /**
   * A successful search answers 200 with a key for every target: the
   * chosen target holds the results of the search and every other target
   * the empty list.
   */
  lemma OutputHasEveryTarget(input: map<string, Value>, targets: seq<string>,
                             route: (string, string) -> Result<seq<Opinion>, string>, results: seq<Opinion>)
    requires ValidationError(input, targets) == None
    requires route(StrippedField(input, "search_target"), StrippedField(input, "search_statement")) == Success(results)
    ensures var r := PostSearchSpec(input, targets, route);
            var target := StrippedField(input, "search_target");
            && r.status == 200 && r.body.Results?
            && r.body.output.Keys == set t | t in targets
            && r.body.output[target] == results
            && forall t :: t in r.body.output && t != target ==> r.body.output[t] == []
  {
    var target := StrippedField(input, "search_target");
    assert target in targets;
    SuccessOutput(targets, target, results);
  }

  /** Any answer other than 200 carries an error and no results. */
  lemma OnlySuccessAnswers200(input: map<string, Value>, targets: seq<string>,
                              route: (string, string) -> Result<seq<Opinion>, string>)
    ensures var r := PostSearchSpec(input, targets, route);
            && (r.status == 200 <==> r.body.Results?)
            && (r.status == 200 <==> r.searched.Some? && route(r.searched.value.0, r.searched.value.1).Success?)
  {
    match ValidationError(input, targets)
    case Some(e) =>
    case None =>
      var target := StrippedField(input, "search_target");
      var outcome := route(target, StrippedField(input, "search_statement"));
      assert PostSearchSpec(input, targets, route).status == Answer(targets, target, outcome).0;
  }

  lemma SuccessOutput(targets: seq<string>, target: string, rs: seq<Opinion>)
    requires target in targets
    ensures var out := InitialOutput(targets)[target := rs];
            && out.Keys == set t | t in targets
            && out[target] == rs
            && forall t :: t in out && t != target ==> out[t] == []
  {
    var out := InitialOutput(targets)[target := rs];
    assert out.Keys == InitialOutput(targets).Keys + {target};
  }

  /**
   * A failed search answers 400 with the failure's own message exactly when
   * that message names one of the three client errors, and 500 with a
   * generic message naming the target otherwise.
   */
  lemma FailureClassification(input: map<string, Value>, targets: seq<string>,
                              route: (string, string) -> Result<seq<Opinion>, string>)
    requires ValidationError(input, targets) == None
    requires route(StrippedField(input, "search_target"), StrippedField(input, "search_statement")).Failure?
    ensures var r := PostSearchSpec(input, targets, route);
            var message := route(StrippedField(input, "search_target"), StrippedField(input, "search_statement")).error;
            && (r.status == 400 <==> IsClientError(message))
            && (r.status == 400 ==> r.body == ErrorBody(message))
            && (r.status != 400 ==> r.status == 500
                                    && r.body == ErrorBody(UnexpectedError(StrippedField(input, "search_target"))))
  {
  }

  /** The router used below: the CourtListener search with a given configuration and endpoints. */
  predicate RoutesToCourtListener(route: (string, string) -> Result<seq<Opinion>, string>, target: string,
                                  statement: string, baseUrl: string, maxResults: int,
                                  api: SearchQuery -> SearchReply, opinions: Value -> OpinionReply,
                                  toText: string -> string)
  {
    route(target, statement) == SearchSpec(statement, baseUrl, maxResults, api, opinions, toText).outcome
  }

  /** A statement with a stoplist word is a client error when the target is CourtListener. */
  lemma ProhibitedStatementIsClientError(input: map<string, Value>, targets: seq<string>,
                                         route: (string, string) -> Result<seq<Opinion>, string>,
                                         baseUrl: string, maxResults: int, api: SearchQuery -> SearchReply,
                                         opinions: Value -> OpinionReply, toText: string -> string, word: string)
    requires ValidationError(input, targets) == None
    requires RoutesToCourtListener(route, StrippedField(input, "search_target"),
                                   StrippedField(input, "search_statement"), baseUrl, maxResults, api, opinions, toText)
    requires word in ProhibitedTerms && word in StatementWords(StrippedField(input, "search_statement"))
    ensures var r := PostSearchSpec(input, targets, route);
            r.status == 400 && r.body.ErrorBody? && Contains(r.body.error, "'" + word + "'")
  {
    var target, statement := StrippedField(input, "search_target"), StrippedField(input, "search_statement");
    ProhibitedTermRejectedBeforeAnyRequest(statement, word, baseUrl, maxResults, api, opinions, toText);
    var message := route(target, statement).error;
    assert IsClientError(message);
    FailureClassification(input, targets, route);
  }

  /** A search reply with a status other than 200 is a client error when the target is CourtListener. */
  lemma ApiStatusIsClientError(input: map<string, Value>, targets: seq<string>,
                               route: (string, string) -> Result<seq<Opinion>, string>,
                               baseUrl: string, maxResults: int, api: SearchQuery -> SearchReply,
                               opinions: Value -> OpinionReply, toText: string -> string)
    requires ValidationError(input, targets) == None
    requires RoutesToCourtListener(route, StrippedField(input, "search_target"),
                                   StrippedField(input, "search_statement"), baseUrl, maxResults, api, opinions, toText)
    requires ProhibitedFound(StrippedField(input, "search_statement")) == []
    requires var q := PrimaryQuery(StrippedField(input, "search_statement")); api(q).Reply? && api(q).status != 200
    ensures var r := PostSearchSpec(input, targets, route);
            r.status == 400 && r.body.ErrorBody? && Contains(r.body.error, "CourtListener API error")
  {
    PrimaryStatusIsFatal(StrippedField(input, "search_statement"), baseUrl, maxResults, api, opinions, toText);
  }
}
