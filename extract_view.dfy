/**
 * The `[POST] /api/extract-search-statement` handler: it checks the user
 * message, rewrites `vs`, `vs.` and `versus` to `v.`, checks the
 * temperature, chooses a model and a provider, asks the provider for a
 * completion, and checks the shape of the JSON object it returns.
 *
 * The environment is a map from variable names to values, the list of
 * available models and the parsing of the temperature are parameters, and
 * the provider call is a function from the request to its reply.
 */
module ExtractView {
  import opened Wrappers
  import opened JsonValues
  import opened Strings

  // ---------------------------------------------------------------------------
  // The `vs` rewrite (line 62)
  // ---------------------------------------------------------------------------

  /**
   * `\b` at position `k` of `s`, where `prevWord` says whether the character
   * just before `s` is a word character (false at the start of the message).
   */
  predicate BoundaryAt(prevWord: bool, s: string, k: nat)
    requires k <= |s|
  {
    var before := if k == 0 then prevWord else IsWordChar(s[k - 1]);
    var after := k < |s| && IsWordChar(s[k]);
    before != after
  }

  /** The character at `k` is `lower` or its upper-case form. */
  predicate MatchesAt(s: string, k: nat, lower: char) {
    k < |s| && LowerChar(s[k]) == lower
  }

  /**
   * The length of the match of `\b(vs\.?|versus)\b` (IGNORECASE) at the start
   * of `s`, or 0. The alternatives are tried in the order the regular
   * expression engine tries them: `vs.`, then `vs` after backtracking over
   * the optional period, then `versus`.
   */
  function MatchLength(prevWord: bool, s: string): (n: nat)
    ensures n <= |s|
    ensures n == 0 || n == 2 || n == 3 || n == 6
  {
    if !BoundaryAt(prevWord, s, 0) then 0
    else if MatchesAt(s, 0, 'v') && MatchesAt(s, 1, 's') && MatchesAt(s, 2, '.') && BoundaryAt(prevWord, s, 3) then 3
    else if MatchesAt(s, 0, 'v') && MatchesAt(s, 1, 's') && BoundaryAt(prevWord, s, 2) then 2
    else if && MatchesAt(s, 0, 'v') && MatchesAt(s, 1, 'e') && MatchesAt(s, 2, 'r')
            && MatchesAt(s, 3, 's') && MatchesAt(s, 4, 'u') && MatchesAt(s, 5, 's') && BoundaryAt(prevWord, s, 6) then 6
    else 0
  }

  /** `re.sub` of the pattern by "v." over `s`, scanning left to right without overlaps. */
  function Rewrite(prevWord: bool, s: string): string
    decreases |s|
  {
    if s == [] then []
    else
      var n := MatchLength(prevWord, s);
      if n > 0 then "v." + Rewrite(IsWordChar(s[n - 1]), s[n..])
      else [s[0]] + Rewrite(IsWordChar(s[0]), s[1..])
  }

  function NormalizeVersus(message: string): string {
    Rewrite(false, message)
  }

  // ---------------------------------------------------------------------------
  // Model and provider (lines 76-121)
  // ---------------------------------------------------------------------------

  /** `os.getenv(name)` is truthy: set and not empty. */
  predicate EnvSet(env: map<string, string>, name: string) {
    name in env && env[name] != ""
  }

  /** `input.get("model", "")`, replaced by a default when it is falsy; `None` when no default applies. */
  function ChosenModel(input: map<string, Value>, env: map<string, string>): Option<Value> {
    var model := Get(input, "model");
    if Truthy(model) then Some(model)
    else if EnvSet(env, "OPENAI_API_KEY") then Some(Str("openai/" + "gpt-4"))
    else if EnvSet(env, "OLLAMA_API_URL") then Some(Str("ollama/" + "mistral"))
    else None
  }

  datatype Provider = OpenAI | Ollama(host: string)

  /** The branch of lines 90-121 taken for `model`. */
  function ProviderFor(model: string, env: map<string, string>): Option<Provider> {
    if StartsWith(model, "openai") || EnvSet(env, "OPENAI_API_KEY") then Some(OpenAI)
    else if StartsWith(model, "ollama") || EnvSet(env, "OLLAMA_API_URL") then
      Some(Ollama(if "OLLAMA_API_URL" in env then env["OLLAMA_API_URL"] else "http://localhost:11434"))
    else None
  }

  /** The model name sent to the provider: its prefix removed wherever it occurs. */
  function ProviderModel(provider: Provider, model: string): string {
    match provider
    case OpenAI => ReplaceAll(model, "openai/", "")
    case Ollama(_) => ReplaceAll(model, "ollama/", "")
  }

  // ---------------------------------------------------------------------------
  // The completion and its output (lines 89-137)
  // ---------------------------------------------------------------------------

  /** One request to a provider. */
  datatype Completion = Completion(provider: Provider, model: string, temperature: real, prompt: string)

  /**
   * The provider's reply: the call raised, or it returned content that
   * `json.loads` turns into an object (`Some`) or into anything else, or not
   * at all (`None`).
   */
  datatype CompletionReply = CompletionFailed | Completed(output: Option<map<string, Value>>)

  predicate StrOrNull(v: Value) {
    v.Str? || v.Null?
  }

  /** The assertions of lines 130-133, in order. */
  predicate IsValidOutput(o: map<string, Value>) {
    && "search_statement" in o
    && StrOrNull(o["search_statement"])
    && "search_target" in o
    && StrOrNull(o["search_target"])
    && |o.Keys| == 2
  }

  // ---------------------------------------------------------------------------
  // The handler
  // ---------------------------------------------------------------------------

  datatype ExtractBody = ExtractError(error: string) | Extracted(output: map<string, Value>)

  /** The status, the body, and the completion request made, if one was. */
  datatype Exchange = Exchange(status: int, body: ExtractBody, call: Option<Completion>)

  /** Everything the handler does once the completion request is known. */
  function AfterCompletion(model: string, completion: Completion, reply: CompletionReply): Exchange {
    match reply
    case CompletionFailed =>
      Exchange(500, ExtractError("Could not run completion against " + model + "."), Some(completion))
    case Completed(output) =>
      if output.Some? && IsValidOutput(output.value) then Exchange(200, Extracted(output.value), Some(completion))
      else Exchange(500, ExtractError(model + " returned invalid JSON or missing keys."), Some(completion))
  }

  /** The temperature asked for (lines 64-70): `float()` of the field, 0 when it is absent. */
  function Temperature(input: map<string, Value>, parseFloat: Value -> Option<real>): Option<real> {
    if "temperature" in input then parseFloat(input["temperature"]) else Some(0.0)
  }

  /** The answer to a model that is not a name of an available model. */
  function ModelError(model: Value): string {
    "Requested model '" + Render(model) + "' is invalid or not available."
  }

  /** The first check of lines 54-86 that fails, with the message answered with 400. */
  function RequestError(input: map<string, Value>, availableModels: seq<string>, env: map<string, string>,
                        parseFloat: Value -> Option<real>): (r: Option<string>)
    ensures r == None ==> && "message" in input && Temperature(input, parseFloat).Some?
                          && ModelCheck(ChosenModel(input, env), availableModels) == None
  {
    if "message" !in input then Some("No message provided.")
    else if Strip(Render(input["message"])) == [] then Some("Message cannot be empty.")
    else if Temperature(input, parseFloat).None? || Temperature(input, parseFloat).value < 0.0 then
      Some("temperature must be a float >= 0.0.")
    else ModelCheck(ChosenModel(input, env), availableModels)
  }

  /** The checks of lines 72-86 on the chosen model. */
  function ModelCheck(chosen: Option<Value>, availableModels: seq<string>): (r: Option<string>)
    ensures r == None <==> chosen.Some? && chosen.value.Str? && chosen.value.s in availableModels
  {
    match chosen
    case None => Some("No model provided and no provider (OpenAI/Ollama) configured.")
    case Some(model) =>
      if !(model.Str? && model.s in availableModels) then Some(ModelError(model)) else None
  }

  /** The prompt: the instructions, a line break, then the stripped and rewritten message. */
  function Prompt(input: map<string, Value>, instructions: string): string
    requires "message" in input
  {
    instructions + "\n" + NormalizeVersus(Strip(Render(input["message"])))
  }

  /** What the handler answers to `input`. */
  function ExtractSpec(input: map<string, Value>, availableModels: seq<string>, env: map<string, string>,
                       parseFloat: Value -> Option<real>, instructions: string, llm: Completion -> CompletionReply): Exchange
  {
    match RequestError(input, availableModels, env, parseFloat)
    case Some(e) => Exchange(400, ExtractError(e), None)
    case None =>
      Dispatch(ChosenModel(input, env).value.s, env, Temperature(input, parseFloat).value,
               Prompt(input, instructions), llm)
  }

  /** Lines 89-137 for an available model `model`. */
  function Dispatch(model: string, env: map<string, string>, temperature: real, prompt: string,
                    llm: Completion -> CompletionReply): Exchange
  {
    match ProviderFor(model, env)
    case None => Exchange(500, ExtractError("No valid provider configured (OpenAI or Ollama)."), None)
    case Some(provider) =>
      var completion := Completion(provider, ProviderModel(provider, model), temperature, prompt);
      AfterCompletion(model, completion, llm(completion))
  }

  /**
   * `post_extract_search_statement` with the parsed JSON body, the
   * available models, the environment, `float()` on a JSON value, the
   * instructions that open every prompt (EXTRACT_SEARCH_STATEMENT_PROMPT)
   * and the provider given as parameters.
   */
  method PostExtractSearchStatement(input: map<string, Value>, availableModels: seq<string>,
                                    env: map<string, string>, parseFloat: Value -> Option<real>,
                                    instructions: string, llm: Completion -> CompletionReply)
    returns (status: int, body: ExtractBody, call: Option<Completion>)
    ensures Exchange(status, body, call) == ExtractSpec(input, availableModels, env, parseFloat, instructions, llm)
  {
    var temperature: real := 0.0;
    call := None;

    if "message" !in input {
      assert RequestError(input, availableModels, env, parseFloat) == Some("No message provided.");
      return 400, ExtractError("No message provided."), call;
    }
    var message := Strip(Render(input["message"]));
    if message == [] {
      assert RequestError(input, availableModels, env, parseFloat) == Some("Message cannot be empty.");
      return 400, ExtractError("Message cannot be empty."), call;
    }
    message := NormalizeVersus(message);

    if "temperature" in input {
      var parsed := parseFloat(input["temperature"]);
      if parsed.None? || parsed.value < 0.0 {
        assert RequestError(input, availableModels, env, parseFloat) == Some("temperature must be a float >= 0.0.");
        return 400, ExtractError("temperature must be a float >= 0.0."), call;
      }
      temperature := parsed.value;
    }

    assert Temperature(input, parseFloat) == Some(temperature) && temperature >= 0.0;
    assert RequestError(input, availableModels, env, parseFloat) == ModelCheck(ChosenModel(input, env), availableModels);
    var prompt := instructions + "\n" + message;

    var model := Get(input, "model");
    if !Truthy(model) {
      if EnvSet(env, "OPENAI_API_KEY") {
        model := Str("openai/" + "gpt-4");
      } else if EnvSet(env, "OLLAMA_API_URL") {
        model := Str("ollama/" + "mistral");
      } else {
        assert RequestError(input, availableModels, env, parseFloat) == Some("No model provided and no provider (OpenAI/Ollama) configured.");
        return 400, ExtractError("No model provided and no provider (OpenAI/Ollama) configured."), call;
      }
    }
    assert ChosenModel(input, env) == Some(model);
    if !(model.Str? && model.s in availableModels) {
      return 400, ExtractError(ModelError(model)), call;
    }
    assert prompt == Prompt(input, instructions);
    status, body, call := RunCompletion(model.s, env, temperature, prompt, llm);
  }

  /** The try block of lines 89-125 and the output check of lines 128-139. */
  method RunCompletion(name: string, env: map<string, string>, temperature: real, prompt: string,
                       llm: Completion -> CompletionReply)
    returns (status: int, body: ExtractBody, call: Option<Completion>)
    ensures Exchange(status, body, call) == Dispatch(name, env, temperature, prompt, llm)
  {
    call := None;
    var reply;
    if StartsWith(name, "openai") || EnvSet(env, "OPENAI_API_KEY") {
      call := Some(Completion(OpenAI, ReplaceAll(name, "openai/", ""), temperature, prompt));
      reply := llm(call.value);
    } else if StartsWith(name, "ollama") || EnvSet(env, "OLLAMA_API_URL") {
      var host := if "OLLAMA_API_URL" in env then env["OLLAMA_API_URL"] else "http://localhost:11434";
      call := Some(Completion(Ollama(host), ReplaceAll(name, "ollama/", ""), temperature, prompt));
      reply := llm(call.value);
    } else {
      return 500, ExtractError("No valid provider configured (OpenAI or Ollama)."), call;
    }
    if reply.CompletionFailed? {
      return 500, ExtractError("Could not run completion against " + name + "."), call;
    }

    var output := reply.output;
    if !(output.Some? && IsValidOutput(output.value)) {
      return 500, ExtractError(name + " returned invalid JSON or missing keys."), call;
    }
    return 200, Extracted(output.value), call;
  }

  // ---------------------------------------------------------------------------
  // Properties of the rewrite
  // ---------------------------------------------------------------------------

  /** A character that is neither a word character nor a period ends every match before it. */
  predicate Separator(c: char) {
    !IsWordChar(c) && c != '.'
  }

  lemma MatchesAtStops(x: string, c: char, y: string, k: nat, lower: char)
    requires Separator(c) && (lower == '.' || IsWordChar(lower)) && k <= |x|
    ensures MatchesAt(x + [c] + y, k, lower) == MatchesAt(x, k, lower)
  {
    var s := x + [c] + y;
    assert k < |x| ==> s[k] == x[k];
    assert k == |x| ==> s[k] == c && LowerChar(c) == c;
  }

  lemma BoundaryStops(p: bool, x: string, c: char, y: string, k: nat)
    requires !IsWordChar(c) && k <= |x|
    ensures BoundaryAt(p, x + [c] + y, k) == BoundaryAt(p, x, k)
  {
    var s := x + [c] + y;
    assert k < |x| ==> s[k] == x[k];
    assert k > 0 ==> s[k - 1] == x[k - 1];
  }

  /** A separator after `x` does not change whether, or how long, a match at the start of `x` is. */
  lemma MatchLengthStops(p: bool, x: string, c: char, y: string)
    requires Separator(c)
    ensures MatchLength(p, x + [c] + y) == MatchLength(p, x)
  {
    var s := x + [c] + y;
    forall k: nat, lower: char | k <= |x| && k <= 6 && (lower == '.' || IsWordChar(lower))
      ensures MatchesAt(s, k, lower) == MatchesAt(x, k, lower)
    {
      MatchesAtStops(x, c, y, k, lower);
    }
    forall k: nat | k <= |x| && k <= 6
      ensures BoundaryAt(p, s, k) == BoundaryAt(p, x, k)
    {
      BoundaryStops(p, x, c, y, k);
    }
  }

  /**
   * The rewrite is local: around a separator (a space, say) the two sides
   * are rewritten independently, and the separator is kept.
   */
  lemma {:induction false} RewriteSplits(p: bool, a: string, c: char, b: string)
    requires Separator(c)
    ensures Rewrite(p, a + [c] + b) == Rewrite(p, a) + [c] + Rewrite(false, b)
    decreases |a|
  {
    if a == [] {
      RewriteSplitsAtSeparator(p, c, b);
    } else {
      var n := MatchLength(p, a);
      var m := if n > 0 then n else 1;
      var head := if n > 0 then "v." else [a[0]];
      var q := IsWordChar(a[m - 1]);
      StepBeforeSeparator(p, a, c, b, m, head);
      RewriteSplits(q, a[m..], c, b);
      AppendAround(head, Rewrite(q, a[m..]), c, Rewrite(false, b));
    }
  }

  /** The separator itself: nothing matches at it, and the rewrite goes on after it. */
  lemma RewriteSplitsAtSeparator(p: bool, c: char, b: string)
    requires Separator(c)
    ensures Rewrite(p, [] + [c] + b) == Rewrite(p, []) + [c] + Rewrite(false, b)
  {
    var s := [] + [c] + b;
    MatchLengthStops(p, [], c, b);
    assert s[1..] == b;
  }

  lemma AppendAround(head: string, x: string, c: char, z: string)
    ensures head + (x + [c] + z) == (head + x) + [c] + z
  {
  }

  /** The first step is the same with or without what follows the separator. */
  lemma StepBeforeSeparator(p: bool, a: string, c: char, b: string, m: nat, head: string)
    requires Separator(c) && a != []
    requires m == (if MatchLength(p, a) > 0 then MatchLength(p, a) else 1)
    requires head == (if MatchLength(p, a) > 0 then "v." else [a[0]])
    ensures Rewrite(p, a) == head + Rewrite(IsWordChar(a[m - 1]), a[m..])
    ensures Rewrite(p, a + [c] + b) == head + Rewrite(IsWordChar(a[m - 1]), a[m..] + [c] + b)
  {
    var s := a + [c] + b;
    MatchLengthStops(p, a, c, b);
    assert s[m - 1] == a[m - 1] && s[0] == a[0];
    DropBeforeSeparator(a, c, b, m);
    RewriteUnfold(p, a, m, head);
    RewriteUnfold(p, s, m, head);
  }

  lemma DropBeforeSeparator(a: string, c: char, b: string, m: nat)
    requires m <= |a|
    ensures (a + [c] + b)[m..] == a[m..] + [c] + b
  {
  }

  /** One step of the rewrite: a replacement, or one character copied. */
  lemma RewriteUnfold(p: bool, s: string, m: nat, head: string)
    requires s != [] && m == (if MatchLength(p, s) > 0 then MatchLength(p, s) else 1)
    requires head == (if MatchLength(p, s) > 0 then "v." else [s[0]])
    ensures Rewrite(p, s) == head + Rewrite(IsWordChar(s[m - 1]), s[m..])
  {
  }

  /** Text without a `v` or `V` is left unchanged. */
  lemma {:induction false} RewriteWithoutV(p: bool, s: string)
    requires HasNoV(s)
    ensures Rewrite(p, s) == s
    decreases |s|
  {
    if s != [] {
      assert !MatchesAt(s, 0, 'v');
      RewriteWithoutV(IsWordChar(s[0]), s[1..]);
      assert s == [s[0]] + s[1..];
    }
  }

  /** The characters of `w` match, ignoring case, those of `lower`. */
  lemma MatchesWord(w: string, lower: string, rest: string)
    requires Lower(w) == lower
    ensures forall i :: 0 <= i < |w| ==> MatchesAt(w + rest, i, lower[i])
    ensures forall i :: 0 <= i < |w| ==> (IsAsciiLetter(lower[i]) ==> IsWordChar((w + rest)[i]))
  {
    forall i | 0 <= i < |w|
      ensures MatchesAt(w + rest, i, lower[i]) && (IsAsciiLetter(lower[i]) ==> IsWordChar((w + rest)[i]))
    {
      assert (w + rest)[i] == w[i];
      assert Lower(w)[i] == LowerChar(w[i]);
    }
  }

  /**
   * `versus` or `vs`, in any ASCII case, between spaces becomes `v.`, and
   * what surrounds it is rewritten on its own.
   */
  lemma VersusBecomesV(a: string, w: string, b: string)
    requires Lower(w) == "versus" || Lower(w) == "vs"
    ensures NormalizeVersus(a + " " + w + " " + b) == NormalizeVersus(a) + " v. " + NormalizeVersus(b)
  {
    var rest := w + (" " + b);
    assert a + " " + w + " " + b == a + [' '] + rest;
    var s := a + [' '] + rest;
    assert Rewrite(false, s) == Rewrite(false, a) + [' '] + Rewrite(false, rest) by {
      RewriteSplits(false, a, ' ', rest);
    }
    WordBeforeSpace(w, b);
    SpacedV(Rewrite(false, a), Rewrite(false, b));
  }

  lemma SpacedV(x: string, y: string)
    ensures x + [' '] + ("v." + " " + y) == x + " v. " + y
  {
  }

  lemma WordBeforeSpace(w: string, b: string)
    requires Lower(w) == "versus" || Lower(w) == "vs"
    ensures Rewrite(false, w + (" " + b)) == "v." + " " + Rewrite(false, b)
  {
    var rest := w + (" " + b);
    MatchesWord(w, Lower(w), " " + b);
    assert rest[|w|] == ' ';
    if |w| == 2 {
      assert MatchLength(false, rest) == 2;
    } else {
      assert !MatchesAt(rest, 1, 's');
      assert MatchLength(false, rest) == 6;
    }
    assert rest[|w|..] == [] + [' '] + b;
    RewriteSplits(true, [], ' ', b);
  }

  /**
   * In `vs.` followed by a space, the `\b` after the period cannot match, so
   * only `vs` is replaced and the period stays: "A vs. B" becomes "A v.. B".
   */
  lemma VsPeriodKeepsPeriod(a: string, w: string, b: string)
    requires Lower(w) == "vs"
    ensures NormalizeVersus(a + " " + w + ". " + b) == NormalizeVersus(a) + " v.. " + NormalizeVersus(b)
  {
    var rest := w + (". " + b);
    assert a + " " + w + ". " + b == a + [' '] + rest;
    RewriteSplits(false, a, ' ', rest);
    VsBeforePeriod(w, b);
    SpacedVPeriod(Rewrite(false, a), Rewrite(false, b));
  }

  lemma SpacedVPeriod(x: string, y: string)
    ensures x + [' '] + ("v." + ("." + " " + y)) == x + " v.. " + y
  {
  }

  /** `vs` before a period and a space: only the two letters are replaced. */
  lemma VsBeforePeriod(w: string, b: string)
    requires Lower(w) == "vs"
    ensures Rewrite(false, w + (". " + b)) == "v." + ("." + " " + Rewrite(false, b))
  {
    var rest := w + (". " + b);
    MatchesWord(w, "vs", ". " + b);
    assert rest[2] == '.' && rest[3] == ' ';
    assert MatchLength(false, rest) == 2;
    RewriteUnfold(false, rest, 2, "v.");
    assert rest[2..] == ". " + b;
    PeriodBeforeSpace(b);
  }

  /** A period after a word, then a space: nothing matches, both are kept. */
  lemma PeriodBeforeSpace(b: string)
    ensures Rewrite(true, ". " + b) == "." + " " + Rewrite(false, b)
  {
    var s := ". " + b;
    assert !MatchesAt(s, 0, 'v');
    assert MatchLength(true, s) == 0;
    RewriteUnfold(true, s, 1, ['.']);
    assert s[1..] == [] + [' '] + b;
    RewriteSplitsAtSeparator(false, ' ', b);
  }

  /** `vs.` directly followed by a word character is replaced whole: "A vs.B" becomes "A v.B". */
  lemma VsPeriodBeforeWord(a: string, w: string, b: string)
    requires Lower(w) == "vs" && b != [] && IsWordChar(b[0])
    ensures NormalizeVersus(a + " " + w + "." + b) == NormalizeVersus(a) + " v." + NormalizeVersus(b)
  {
    var rest := w + ("." + b);
    assert a + " " + w + "." + b == a + [' '] + rest;
    RewriteSplits(false, a, ' ', rest);
    MatchesWord(w, "vs", "." + b);
    assert rest[2] == '.' && rest[3] == b[0];
    assert MatchLength(false, rest) == 3;
    assert rest[3..] == b;
  }

  predicate HasNoV(s: string) {
    forall i :: 0 <= i < |s| ==> s[i] != 'v' && s[i] != 'V'
  }

  /**
   * Party names without a `v` are kept as they are: "Kramer versus Kramer"
   * and "Kramer VS Kramer" both become "Kramer v. Kramer".
   */
  lemma PartiesAroundVersus(x: string, w: string, y: string)
    requires HasNoV(x) && HasNoV(y)
    requires Lower(w) == "versus" || Lower(w) == "vs"
    ensures NormalizeVersus(x + " " + w + " " + y) == x + " v. " + y
  {
    VersusBecomesV(x, w, y);
    RewriteWithoutV(false, x);
    RewriteWithoutV(false, y);
  }

  // ---------------------------------------------------------------------------
  // Properties of the handler
  // ---------------------------------------------------------------------------

  /** The accepted output shape: exactly the two keys, each a string or null. */
  lemma ValidOutputShape(o: map<string, Value>)
    ensures IsValidOutput(o) <==>
              && o.Keys == {"search_statement", "search_target"}
              && StrOrNull(o["search_statement"]) && StrOrNull(o["search_target"])
  {
    var both := {"search_statement", "search_target"};
    assert |both| == 2;
    if IsValidOutput(o) {
      assert both <= o.Keys;
      assert |o.Keys - both| == |o.Keys| - |both|;
      assert o.Keys - both == {};
    }
  }

  /** The message is checked before anything else, and no completion is requested without one. */
  lemma MessageCheckedFirst(input: map<string, Value>, availableModels: seq<string>, env: map<string, string>,
                            parseFloat: Value -> Option<real>, instructions: string, llm: Completion -> CompletionReply)
    ensures "message" !in input ==>
              ExtractSpec(input, availableModels, env, parseFloat, instructions, llm)
              == Exchange(400, ExtractError("No message provided."), None)
    ensures "message" in input && Strip(Render(input["message"])) == [] ==>
              ExtractSpec(input, availableModels, env, parseFloat, instructions, llm)
              == Exchange(400, ExtractError("Message cannot be empty."), None)
  {
  }

  /** The request passes every check exactly when the message, the temperature and the model are acceptable. */
  lemma RequestAccepted(input: map<string, Value>, availableModels: seq<string>, env: map<string, string>,
                        parseFloat: Value -> Option<real>)
    ensures RequestError(input, availableModels, env, parseFloat) == None <==>
              && "message" in input && Strip(Render(input["message"])) != []
              && ("temperature" in input ==> parseFloat(input["temperature"]).Some? && parseFloat(input["temperature"]).value >= 0.0)
              && ChosenModel(input, env).Some? && ChosenModel(input, env).value.Str?
              && ChosenModel(input, env).value.s in availableModels
  {
  }

  /**
   * Once a provider is chosen, the request carries the model name with the
   * provider's prefix removed, the temperature and the prompt unchanged, and
   * the answer is 200 exactly when the provider's reply is a well-shaped
   * object, which is then the body.
   */
  lemma DispatchOutcome(model: string, env: map<string, string>, temperature: real, prompt: string,
                        llm: Completion -> CompletionReply)
    ensures var x := Dispatch(model, env, temperature, prompt, llm);
            && (x.call.None? <==> ProviderFor(model, env).None?)
            && (x.call.Some? ==>
                  && Some(x.call.value.provider) == ProviderFor(model, env)
                  && x.call.value.model == ProviderModel(x.call.value.provider, model)
                  && x.call.value.temperature == temperature && x.call.value.prompt == prompt)
            && (x.status == 200 <==>
                  x.call.Some? && llm(x.call.value).Completed? && llm(x.call.value).output.Some?
                  && IsValidOutput(llm(x.call.value).output.value))
            && (x.status == 200 ==> x.body == Extracted(llm(x.call.value).output.value))
            && (x.status != 200 ==> x.status == 500 && x.body.ExtractError?)
  {
  }

  /** A request that fails a check is answered 400 with that check's message; any other is dispatched. */
  lemma ChecksThenDispatch(input: map<string, Value>, availableModels: seq<string>, env: map<string, string>,
                           parseFloat: Value -> Option<real>, instructions: string, llm: Completion -> CompletionReply)
    ensures var x := ExtractSpec(input, availableModels, env, parseFloat, instructions, llm);
            var e := RequestError(input, availableModels, env, parseFloat);
            && (e.Some? ==> x == Exchange(400, ExtractError(e.value), None))
            && (e.None? ==> x == Dispatch(ChosenModel(input, env).value.s, env, Temperature(input, parseFloat).value,
                                          Prompt(input, instructions), llm))
  {
  }

  /**
   * A completion is requested only for a present, non-blank message, an
   * acceptable temperature and an available model; the prompt ends with the
   * stripped, rewritten message and the temperature is the one given, or 0.
   */
  lemma CompletionRequestedOnlyWhenValid(input: map<string, Value>, availableModels: seq<string>,
                                         env: map<string, string>, parseFloat: Value -> Option<real>,
                                         instructions: string, llm: Completion -> CompletionReply)
    ensures var x := ExtractSpec(input, availableModels, env, parseFloat, instructions, llm);
            x.call.Some? ==>
              && "message" in input && Strip(Render(input["message"])) != []
              && x.call.value.prompt == instructions + "\n" + NormalizeVersus(Strip(Render(input["message"])))
              && x.call.value.temperature >= 0.0
              && ("temperature" in input ==> parseFloat(input["temperature"]) == Some(x.call.value.temperature))
              && ("temperature" !in input ==> x.call.value.temperature == 0.0)
              && ChosenModel(input, env).Some? && ChosenModel(input, env).value.Str?
              && ChosenModel(input, env).value.s in availableModels
  {
    ChecksThenDispatch(input, availableModels, env, parseFloat, instructions, llm);
    if RequestError(input, availableModels, env, parseFloat) == None {
      RequestAccepted(input, availableModels, env, parseFloat);
      DispatchOutcome(ChosenModel(input, env).value.s, env, Temperature(input, parseFloat).value,
                      Prompt(input, instructions), llm);
    }
  }

  /**
   * The default model: "openai/gpt-4" when OPENAI_API_KEY is set, else
   * "ollama/mistral" when OLLAMA_API_URL is set, else a 400 before any
   * provider is called.
   */
  lemma DefaultModel(input: map<string, Value>, availableModels: seq<string>, env: map<string, string>,
                     parseFloat: Value -> Option<real>, instructions: string, llm: Completion -> CompletionReply)
    requires !Truthy(Get(input, "model"))
    ensures EnvSet(env, "OPENAI_API_KEY") ==> ChosenModel(input, env) == Some(Str("openai/" + "gpt-4"))
    ensures !EnvSet(env, "OPENAI_API_KEY") && EnvSet(env, "OLLAMA_API_URL")
            ==> ChosenModel(input, env) == Some(Str("ollama/" + "mistral"))
    ensures !EnvSet(env, "OPENAI_API_KEY") && !EnvSet(env, "OLLAMA_API_URL")
            ==> var x := ExtractSpec(input, availableModels, env, parseFloat, instructions, llm);
                x.status == 400 && x.call.None?
  {
  }

  /**
   * The provider is OpenAI exactly when the model starts with "openai" or
   * OPENAI_API_KEY is set, whatever the model's own prefix.
   */
  lemma ProviderChoice(input: map<string, Value>, availableModels: seq<string>, env: map<string, string>,
                       parseFloat: Value -> Option<real>, instructions: string, llm: Completion -> CompletionReply)
    ensures var x := ExtractSpec(input, availableModels, env, parseFloat, instructions, llm);
            x.call.Some? ==>
              var model := ChosenModel(input, env).value.s;
              && (x.call.value.provider == OpenAI <==> StartsWith(model, "openai") || EnvSet(env, "OPENAI_API_KEY"))
              && (x.call.value.provider.Ollama? ==>
                    x.call.value.provider.host
                    == if "OLLAMA_API_URL" in env then env["OLLAMA_API_URL"] else "http://localhost:11434")
              && x.call.value.model == ProviderModel(x.call.value.provider, model)
  {
    ChecksThenDispatch(input, availableModels, env, parseFloat, instructions, llm);
    if RequestError(input, availableModels, env, parseFloat) == None {
      DispatchOutcome(ChosenModel(input, env).value.s, env, Temperature(input, parseFloat).value,
                      Prompt(input, instructions), llm);
    }
  }

  /** "openai/gpt-4" is sent to OpenAI as "gpt-4". */
  lemma OpenAIPrefixRemoved(rest: string)
    requires !Contains(rest, "openai/")
    ensures ProviderModel(OpenAI, "openai/" + rest) == rest
  {
    ReplaceAllLeading("openai/", rest, "");
    ReplaceAllAbsent(rest, "openai/", "");
  }

  /**
   * Without a model in the request, with OPENAI_API_KEY set and the default
   * model available, OpenAI is asked for "gpt-4".
   */
  lemma DefaultOpenAIRequest(input: map<string, Value>, availableModels: seq<string>, env: map<string, string>,
                             parseFloat: Value -> Option<real>, instructions: string, llm: Completion -> CompletionReply)
    requires "message" in input && Strip(Render(input["message"])) != []
    requires Temperature(input, parseFloat) == Some(0.0)
    requires !Truthy(Get(input, "model"))
    requires EnvSet(env, "OPENAI_API_KEY") && "openai/" + "gpt-4" in availableModels
    ensures ExtractSpec(input, availableModels, env, parseFloat, instructions, llm).call
            == Some(Completion(OpenAI, "gpt-4", 0.0, Prompt(input, instructions)))
  {
    ChecksThenDispatch(input, availableModels, env, parseFloat, instructions, llm);
    assert RequestError(input, availableModels, env, parseFloat) == None;
    DispatchOutcome("openai/" + "gpt-4", env, 0.0, Prompt(input, instructions), llm);
    ShorterLacks("gpt-4", "openai/");
    OpenAIPrefixRemoved("gpt-4");
  }

  /**
   * Without a model in the request, with only OLLAMA_API_URL set and the
   * default model available, the configured Ollama host is asked for "mistral".
   */
  lemma DefaultOllamaRequest(input: map<string, Value>, availableModels: seq<string>, env: map<string, string>,
                             parseFloat: Value -> Option<real>, instructions: string, llm: Completion -> CompletionReply)
    requires "message" in input && Strip(Render(input["message"])) != []
    requires Temperature(input, parseFloat) == Some(0.0)
    requires !Truthy(Get(input, "model"))
    requires !EnvSet(env, "OPENAI_API_KEY") && EnvSet(env, "OLLAMA_API_URL") && "ollama/" + "mistral" in availableModels
    ensures ExtractSpec(input, availableModels, env, parseFloat, instructions, llm).call
            == Some(Completion(Ollama(env["OLLAMA_API_URL"]), "mistral", 0.0, Prompt(input, instructions)))
  {
    ChecksThenDispatch(input, availableModels, env, parseFloat, instructions, llm);
    assert RequestError(input, availableModels, env, parseFloat) == None;
    DispatchOutcome("ollama/" + "mistral", env, 0.0, Prompt(input, instructions), llm);
    OllamaDefaultName();
  }

  /** The Ollama default model does not look like an OpenAI one, and is sent as "mistral". */
  lemma OllamaDefaultName()
    ensures !StartsWith("ollama/" + "mistral", "openai")
    ensures ProviderModel(Ollama(""), "ollama/" + "mistral") == "mistral"
  {
    assert ("ollama/" + "mistral")[1] == 'l';
    LacksWhenFirstDiffers("mistral", "ollama/");
    ReplaceAllLeading("ollama/", "mistral", "");
    ReplaceAllAbsent("mistral", "ollama/", "");
  }

  /** An "ollama/..." model goes to OpenAI, under its full name, whenever OPENAI_API_KEY is set. */
  lemma OllamaModelWithOpenAIKey(model: string, env: map<string, string>)
    requires StartsWith(model, "ollama") && !Contains(model, "openai/")
    requires EnvSet(env, "OPENAI_API_KEY")
    ensures ProviderFor(model, env) == Some(OpenAI)
    ensures ProviderModel(OpenAI, model) == model
  {
    ReplaceAllAbsent(model, "openai/", "");
  }

  /**
   * A 200 carries the provider's output, which has exactly the two keys,
   * each a string or null; a well-shaped output is always answered with 200.
   */
  lemma OutputAcceptedIffWellShaped(input: map<string, Value>, availableModels: seq<string>,
                                    env: map<string, string>, parseFloat: Value -> Option<real>,
                                    instructions: string, llm: Completion -> CompletionReply)
    ensures var x := ExtractSpec(input, availableModels, env, parseFloat, instructions, llm);
            && (x.status == 200 ==>
                  && x.call.Some? && x.body.Extracted?
                  && llm(x.call.value) == Completed(Some(x.body.output))
                  && x.body.output.Keys == {"search_statement", "search_target"}
                  && StrOrNull(x.body.output["search_statement"]) && StrOrNull(x.body.output["search_target"]))
            && (x.call.Some? && llm(x.call.value).Completed? ==>
                  (x.status == 200 <==> llm(x.call.value).output.Some? && IsValidOutput(llm(x.call.value).output.value)))
  {
    var x := ExtractSpec(input, availableModels, env, parseFloat, instructions, llm);
    ChecksThenDispatch(input, availableModels, env, parseFloat, instructions, llm);
    if RequestError(input, availableModels, env, parseFloat) == None {
      DispatchOutcome(ChosenModel(input, env).value.s, env, Temperature(input, parseFloat).value,
                      Prompt(input, instructions), llm);
      if x.status == 200 {
        ValidOutputShape(x.body.output);
      }
    }
  }
}
