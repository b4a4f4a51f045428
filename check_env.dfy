/**
 * The start-up check of the environment: the ordered list of required
 * variables that are unset or blank, and what the check does with it.
 *
 * The environment is a map from names to values; the two messages the
 * check prints are left out, the one it raises is modelled as a `Failure`.
 */
module EnvCheck {
  import opened Wrappers
  import opened Strings

  /** The variables the application needs, in declared order. */
  const RequiredEnvVars: seq<string> := [
    "RATE_LIMIT_STORAGE_URI",
    "API_MODELS_RATE_LIMIT",
    "API_EXTRACT_SEARCH_STATEMENT_RATE_LIMIT",
    "API_SEARCH_RATE_LIMIT",
    "API_COMPLETE_RATE_LIMIT",
    "COURT_LISTENER_MAX_RESULTS",
    "EXTRACT_SEARCH_STATEMENT_PROMPT",
    "COURT_LISTENER_API_URL",
    "COURT_LISTENER_BASE_URL",
    "TEXT_COMPLETION_BASE_PROMPT",
    "TEXT_COMPLETION_RAG_PROMPT",
    "TEXT_COMPLETION_HISTORY_PROMPT"
  ]

  /** `name not in os.environ or not os.environ[name].strip()` */
  predicate Blank(env: map<string, string>, name: string) {
    name !in env || Strip(env[name]) == []
  }

  /** The names of `vars` that are blank in `env`, in the order of `vars`. */
  function MissingFrom(vars: seq<string>, env: map<string, string>): (missing: seq<string>)
    ensures |missing| <= |vars|
    decreases |vars|
  {
    if vars == [] then []
    else (if Blank(env, vars[0]) then [vars[0]] else []) + MissingFrom(vars[1..], env)
  }

  /** The `missing` list of the check. */
  function Missing(env: map<string, string>): seq<string> {
    MissingFrom(RequiredEnvVars, env)
  }

  /** The opening of the raised message: a warning sign, two spaces, then the text. */
  const MissingPrefix: string := "\U{26A0}\U{FE0F}  Missing environment variables: "

  function MissingMessage(missing: seq<string>): string {
    MissingPrefix + Join(missing, ", ")
  }

  /**
   * `check_env(strict)`: `true` when nothing is missing; otherwise an error
   * naming the missing variables when `strict`, and `false` when not.
   * `strict` defaults to `true`.
   */
  function CheckEnv(env: map<string, string>, strict: bool := true): Result<bool, string> {
    var missing := Missing(env);
    if missing != [] then
      if strict then Failure(MissingMessage(missing)) else Success(false)
    else Success(true)
  }

  // ---------------------------------------------------------------------------
  // Properties
  // ---------------------------------------------------------------------------

  /** A name is reported exactly when it is one of `vars` and blank. */
  lemma {:induction false} MissingMembers(vars: seq<string>, env: map<string, string>, name: string)
    ensures name in MissingFrom(vars, env) <==> name in vars && Blank(env, name)
    decreases |vars|
  {
    if vars != [] {
      MissingMembers(vars[1..], env, name);
      assert vars == [vars[0]] + vars[1..];
    }
  }

  /** The list keeps the declared order: the missing names of a concatenation are those of each part, in turn. */
  lemma {:induction false} MissingConcat(a: seq<string>, b: seq<string>, env: map<string, string>)
    ensures MissingFrom(a + b, env) == MissingFrom(a, env) + MissingFrom(b, env)
    decreases |a|
  {
    if a == [] {
      assert a + b == b;
    } else {
      assert (a + b)[1..] == a[1..] + b;
      MissingConcat(a[1..], b, env);
    }
  }

  /** Nothing is reported exactly when every variable of `vars` holds a non-blank value. */
  lemma NothingMissingIffAllSet(vars: seq<string>, env: map<string, string>)
    ensures MissingFrom(vars, env) == [] <==> forall name :: name in vars ==> name in env && Strip(env[name]) != []
  {
    if MissingFrom(vars, env) == [] {
      forall name | name in vars
        ensures name in env && Strip(env[name]) != []
      {
        MissingMembers(vars, env, name);
      }
    } else {
      MissingMembers(vars, env, MissingFrom(vars, env)[0]);
    }
  }

  /** The raised message names every missing variable. */
  lemma MessageNamesEach(missing: seq<string>, k: nat)
    requires k < |missing|
    ensures StartsWith(MissingMessage(missing), MissingPrefix)
    ensures Contains(MissingMessage(missing), missing[k])
  {
    JoinContains(missing, ", ", k);
    ContainsSuffix(MissingPrefix, Join(missing, ", "), missing[k]);
    assert MissingMessage(missing)[..|MissingPrefix|] == MissingPrefix;
  }

  /** The check answers `true`, in either mode, exactly when no required variable is blank. */
  lemma CheckEnvTrueIffComplete(env: map<string, string>, strict: bool)
    ensures CheckEnv(env, strict) == Success(true) <==> forall name :: name in RequiredEnvVars ==> !Blank(env, name)
  {
    NothingMissingIffAllSet(RequiredEnvVars, env);
  }

  /** Without `strict` the check never raises: it answers `false` when something is missing. */
  lemma LenientNeverRaises(env: map<string, string>)
    ensures CheckEnv(env, false).Success?
    ensures CheckEnv(env, false) == Success(false) <==> exists name :: name in RequiredEnvVars && Blank(env, name)
  {
    NothingMissingIffAllSet(RequiredEnvVars, env);
  }

  /** The message built from the missing names of `vars` names each blank variable of `vars`. */
  lemma MessageNamesBlank(vars: seq<string>, env: map<string, string>, name: string)
    requires name in vars && Blank(env, name)
    ensures MissingFrom(vars, env) != []
    ensures Contains(MissingMessage(MissingFrom(vars, env)), name)
  {
    var missing := MissingFrom(vars, env);
    MissingMembers(vars, env, name);
    var k :| 0 <= k < |missing| && missing[k] == name;
    MessageNamesEach(missing, k);
  }

  /** A strict check, the default, of an incomplete environment raises, naming every required variable that is blank. */
  lemma StrictNamesMissing(env: map<string, string>, name: string)
    requires name in RequiredEnvVars && Blank(env, name)
    ensures CheckEnv(env).Failure?
    ensures StartsWith(CheckEnv(env).error, MissingPrefix)
    ensures Contains(CheckEnv(env).error, name)
  {
    MessageNamesBlank(RequiredEnvVars, env, name);
    MessageNamesEach(Missing(env), 0);
  }
}
