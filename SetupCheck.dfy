/** The environment check (test_setup.py): the interpreter version rule, the check
    of the three credential variables with their redacted display, and the summary
    that decides the exit status. The probes themselves (imports, launching a
    browser, one request to the model service) are represented by their boolean
    outcomes. */
module SetupCheck {
  import opened Text

  const RequiredVars: seq<string> := ["FACEBOOK_EMAIL", "FACEBOOK_PASSWORD", "GOOGLE_API_KEY"]
  const ApiKeyVar := "GOOGLE_API_KEY"
  /** (module imported, name shown), in the order they are probed. */
  const Dependencies: seq<(string, string)> := [
    ("playwright.sync_api", "Playwright"),
    ("dotenv", "python-dotenv"),
    ("langchain", "LangChain"),
    ("langchain_google_genai", "LangChain Google GenAI"),
    ("google.generativeai", "Google GenerativeAI"),
    ("pydantic", "Pydantic")]
  const Ellipsis := "..."

  /** `test_python_version`, exactly as written: the minor version alone must be at
      least 8. */
  function PythonVersionOk(major: int, minor: int): bool
  {
    major >= 3 && minor >= 8
  }

  /** 3.8 and 3.12 pass, 3.7 and 2.9 fail, and so does 4.0. */
  lemma VersionRuleAsWritten()
    ensures PythonVersionOk(3, 8) && PythonVersionOk(3, 12)
    ensures !PythonVersionOk(3, 7) && !PythonVersionOk(2, 9)
    ensures !PythonVersionOk(4, 0)
  {
  }

  /** The partial display of a credential: its first 10 characters when it is longer
      than 10, otherwise at most its first 5, always followed by "...". */
  function Redact(value: string): (shown: string)
    ensures EndsWith(shown, Ellipsis)
    ensures |value| > 10 ==> shown == value[..10] + Ellipsis
    ensures |value| <= 10 ==> shown == Take(value, 5) + Ellipsis
    ensures StartsWith(value, shown[..|shown| - |Ellipsis|])
    ensures |shown| <= 10 + |Ellipsis|
  {
    if |value| > 10 then value[..10] + Ellipsis else Take(value, 5) + Ellipsis
  }

  /** `os.getenv(name)` is truthy: the variable exists and is not empty. */
  predicate IsSet(env: map<string, string>, name: string)
  {
    name in env && env[name] != ""
  }

  predicate AllSet(env: map<string, string>)
  {
    forall i :: 0 <= i < |RequiredVars| ==> IsSet(env, RequiredVars[i])
  }

  /** One line of the report: the redacted value, or the note that it is not set. */
  datatype EnvLine = Shown(name: string, redacted: string) | Missing(name: string)

  function LineFor(env: map<string, string>, name: string): EnvLine
  {
    if IsSet(env, name) then Shown(name, Redact(env[name])) else Missing(name)
  }

  /** `test_environment_variables`: every variable is examined, set or not, and the
      result is true exactly when all three are set. */
  method TestEnvironmentVariables(env: map<string, string>) returns (allSet: bool, report: seq<EnvLine>)
    ensures allSet <==> AllSet(env)
    ensures |report| == |RequiredVars|
    ensures forall i :: 0 <= i < |RequiredVars| ==> report[i] == LineFor(env, RequiredVars[i])
  {
    allSet := true;
    report := [];
    for i := 0 to |RequiredVars|
      invariant |report| == i
      invariant forall k :: 0 <= k < i ==> report[k] == LineFor(env, RequiredVars[k])
      invariant allSet <==> forall k :: 0 <= k < i ==> IsSet(env, RequiredVars[k])
    {
      var name := RequiredVars[i];
      if IsSet(env, name) {
        var displayValue := Redact(env[name]);
        report := report + [Shown(name, displayValue)];
      } else {
        report := report + [Missing(name)];
        allSet := false;
      }
    }
  }

  /** `test_langchain_setup`: fails without an API key, before any request is made;
      with a key it passes exactly when the request succeeds. */
  function LangchainSetupOk(env: map<string, string>, requestOk: bool): (ok: bool)
    ensures !IsSet(env, ApiKeyVar) ==> !ok
    ensures IsSet(env, ApiKeyVar) ==> (ok <==> requestOk)
  {
    IsSet(env, ApiKeyVar) && requestOk
  }

  datatype CheckResult = CheckResult(name: string, passed: bool)

  /** The results `main` collects, in order. */
  function Results(major: int, minor: int, importable: string -> bool, env: map<string, string>,
                   browserOk: bool, requestOk: bool): seq<CheckResult>
  {
    [CheckResult("Python Version", PythonVersionOk(major, minor))] +
    seq(|Dependencies|, i requires 0 <= i < |Dependencies| => CheckResult(Dependencies[i].1, importable(Dependencies[i].0))) +
    [CheckResult("Environment Variables", AllSet(env)),
     CheckResult("Playwright Browsers", browserOk),
     CheckResult("LangChain + GenAI", LangchainSetupOk(env, requestOk))]
  }

  /** `sum(1 for _, result in results if result)`: never more than the checks. */
  function CountPassed(results: seq<CheckResult>): (n: nat)
    ensures n <= |results|
    decreases |results|
  {
    if results == [] then 0
    else CountPassed(results[..|results| - 1]) + if results[|results| - 1].passed then 1 else 0
  }

  /** The pass count never exceeds the number of checks and reaches it exactly when
      every check passed. */
  lemma {:induction false} CountPassedRule(results: seq<CheckResult>)
    ensures CountPassed(results) <= |results|
    ensures CountPassed(results) == |results| <==> forall i :: 0 <= i < |results| ==> results[i].passed
    decreases |results|
  {
    if results != [] {
      var init := results[..|results| - 1];
      CountPassedRule(init);
      forall i | 0 <= i < |init| ensures init[i] == results[i] {
      }
    }
  }

  /** `main`: runs the checks in order, counts the passes and succeeds exactly when
      every check passed. */
  method RunAllChecks(major: int, minor: int, importable: string -> bool, env: map<string, string>,
                      browserOk: bool, requestOk: bool)
    returns (results: seq<CheckResult>, passed: nat, success: bool)
    ensures results == Results(major, minor, importable, env, browserOk, requestOk)
    ensures passed == CountPassed(results) <= |results|
    ensures success <==> passed == |results|
    ensures success <==> forall i :: 0 <= i < |results| ==> results[i].passed
  {
    results := [CheckResult("Python Version", PythonVersionOk(major, minor))];
    for i := 0 to |Dependencies|
      invariant |results| == 1 + i
      invariant results[0] == CheckResult("Python Version", PythonVersionOk(major, minor))
      invariant forall k :: 0 <= k < i ==> results[1 + k] == CheckResult(Dependencies[k].1, importable(Dependencies[k].0))
    {
      results := results + [CheckResult(Dependencies[i].1, importable(Dependencies[i].0))];
    }
    var envOk, _ := TestEnvironmentVariables(env);
    results := results + [CheckResult("Environment Variables", envOk)];
    results := results + [CheckResult("Playwright Browsers", browserOk)];
    results := results + [CheckResult("LangChain + GenAI", LangchainSetupOk(env, requestOk))];
    assert results == Results(major, minor, importable, env, browserOk, requestOk);
    CountPassedRule(results);
    passed := CountPassed(results);
    success := passed == |results|;
  }

  /** `sys.exit(0 if success else 1)`. */
  function ExitStatus(success: bool): (code: int)
    ensures code == 0 <==> success
    ensures code == 0 || code == 1
  {
    if success then 0 else 1
  }

  /** With no credentials set and every other probe succeeding, two checks fail: the
      variables themselves and the model service check, which needs the API key.
      Eight checks pass and the exit status is 1. */
  lemma MissingCredentialsScenario(major: int, minor: int, importable: string -> bool, browserOk: bool, requestOk: bool)
    requires PythonVersionOk(major, minor) && browserOk && requestOk
    requires forall i :: 0 <= i < |Dependencies| ==> importable(Dependencies[i].0)
    ensures var rs := Results(major, minor, importable, map[], browserOk, requestOk);
      |rs| == 10 &&
      (forall i :: 0 <= i < |rs| ==> (!rs[i].passed <==> rs[i].name in {"Environment Variables", "LangChain + GenAI"})) &&
      CountPassed(rs) == 8 &&
      ExitStatus(CountPassed(rs) == |rs|) == 1
  {
    var rs := Results(major, minor, importable, map[], browserOk, requestOk);
    assert !IsSet(map[], RequiredVars[0]);
    assert !AllSet(map[]);
    forall i | 1 <= i < 7 ensures rs[i].passed && rs[i].name == Dependencies[i - 1].1 {
    }
    assert rs[..9][..8] == rs[..8];
    assert CountPassed(rs[..1]) == 1 by { assert rs[..1][..0] == []; }
    assert CountPassed(rs[..2]) == 2 by { assert rs[..2][..1] == rs[..1]; }
    assert CountPassed(rs[..3]) == 3 by { assert rs[..3][..2] == rs[..2]; }
    assert CountPassed(rs[..4]) == 4 by { assert rs[..4][..3] == rs[..3]; }
    assert CountPassed(rs[..5]) == 5 by { assert rs[..5][..4] == rs[..4]; }
    assert CountPassed(rs[..6]) == 6 by { assert rs[..6][..5] == rs[..5]; }
    assert CountPassed(rs[..7]) == 7 by { assert rs[..7][..6] == rs[..6]; }
    assert CountPassed(rs[..8]) == 7 by { assert rs[..8][..7] == rs[..7]; }
    assert CountPassed(rs[..9]) == 8 by { assert rs[..9][..8] == rs[..8]; }
    assert CountPassed(rs) == 8 by { assert rs[..9] == rs[..|rs| - 1]; }
  }
}
