/** `fixtures/test_fixtures.py`: the result collector handed to tests, the
    environment and resolution fixtures with their fallbacks, the metadata
    flag for parallel runs, and the name of a saved results file. Settings
    read from the process environment are parameters. */
module Fixtures {
  import opened Base
  import opened Seqs
  import opened Clock
  import Text
  import Environments

  /** The dictionary the collector fills in. An assertion record is kept as
      a string-to-string map. */
  datatype TestResults = TestResults(testName: string, status: string, duration: real,
                                     screenshots: seq<string>, errors: seq<string>,
                                     assertions: seq<map<string, string>>)

  /** The collector's starting state. */
  const FreshResults: TestResults := TestResults("", "unknown", 0.0, [], [], [])

  /** The calls a test can make on the collector. */
  datatype Call =
    | SetTestName(name: string)
    | SetStatus(status: string)
    | SetDuration(duration: real)
    | AddScreenshot(path: string)
    | AddError(error: string)
    | AddAssertion(assertion: map<string, string>)

  /** One collector call: a setter overwrites its own field, an adder
      appends to the end of its own list, and every other field is kept. */
  function Apply(r: TestResults, call: Call): (s: TestResults)
    ensures s.testName == if call.SetTestName? then call.name else r.testName
    ensures s.status == if call.SetStatus? then call.status else r.status
    ensures s.duration == if call.SetDuration? then call.duration else r.duration
    ensures s.screenshots == r.screenshots + if call.AddScreenshot? then [call.path] else []
    ensures s.errors == r.errors + if call.AddError? then [call.error] else []
    ensures s.assertions == r.assertions + if call.AddAssertion? then [call.assertion] else []
  {
    match call
    case SetTestName(name) => r.(testName := name)
    case SetStatus(status) => r.(status := status)
    case SetDuration(duration) => r.(duration := duration)
    case AddScreenshot(path) => r.(screenshots := r.screenshots + [path])
    case AddError(error) => r.(errors := r.errors + [error])
    case AddAssertion(assertion) => r.(assertions := r.assertions + [assertion])
  }

  /** The collector after a sequence of calls on a fresh one; `get_results()`
      returns this state as a copy. */
  function Replay(calls: seq<Call>): (r: TestResults)
    ensures calls == [] ==> r.testName == "" && r.status == "unknown" && r.duration == 0.0
    ensures calls == [] ==> r.screenshots == [] && r.errors == [] && r.assertions == []
    ensures |r.screenshots| + |r.errors| + |r.assertions| <= |calls|
  {
    if calls == [] then FreshResults
    else Apply(Replay(calls[..|calls| - 1]), calls[|calls| - 1])
  }

  predicate IsAddError(call: Call) {
    call.AddError?
  }

  function ErrorOf(call: Call): string {
    if call.AddError? then call.error else ""
  }

  /** The reported errors are exactly the added ones, in the order added. */
  lemma {:induction false} ReplayCollectsErrors(calls: seq<Call>)
    ensures Replay(calls).errors == Map(Filter(calls, IsAddError), ErrorOf)
  {
    if calls != [] {
      var init := calls[..|calls| - 1];
      var last := calls[|calls| - 1];
      assert calls == init + [last];
      ReplayCollectsErrors(init);
      FilterAppend(init, [last], IsAddError);
      MapAppend(Filter(init, IsAddError), Filter([last], IsAddError), ErrorOf);
      assert [last][1..] == [];
      if last.AddError? {
        assert Map(Filter([last], IsAddError), ErrorOf) == [last.error];
      } else {
        assert Filter([last], IsAddError) == [];
      }
    }
  }

  /** The name set by the last `set_test_name` call, or `None`. */
  function LastName(calls: seq<Call>): (name: Option<string>)
    ensures name.Some? ==> exists k :: 0 <= k < |calls| && calls[k] == SetTestName(name.value)
                                       && forall j :: k < j < |calls| ==> !calls[j].SetTestName?
    ensures name.None? ==> forall k :: 0 <= k < |calls| ==> !calls[k].SetTestName?
  {
    if calls == [] then None
    else if calls[|calls| - 1].SetTestName? then Some(calls[|calls| - 1].name)
    else
      var before := LastName(calls[..|calls| - 1]);
      assert forall k :: 0 <= k < |calls| - 1 ==> calls[..|calls| - 1][k] == calls[k];
      before
  }

  /** The last `set_test_name` wins; without one the name stays "". */
  lemma {:induction false} ReplayKeepsLastName(calls: seq<Call>)
    ensures Replay(calls).testName == match LastName(calls) case Some(n) => n case None => ""
  {
    if calls != [] {
      ReplayKeepsLastName(calls[..|calls| - 1]);
    }
  }

  /** The part of a profile of the `environment_config` fixture this model
      keeps: the float timeout multiplier is left out. */
  datatype EnvironmentProfile = EnvironmentProfile(baseUrl: string, retryCount: nat)

  const ProfileTable: map<string, EnvironmentProfile> := map[
    "local" := EnvironmentProfile("https://www.youtube.com", 2),
    "ci" := EnvironmentProfile("https://www.youtube.com", 3),
    "staging" := EnvironmentProfile("https://www.youtube.com", 3)
  ]

  /** `environment_config()`, given TEST_ENVIRONMENT: an exact-key lookup of
      the variable (default "local") that falls back to the local profile. */
  function EnvironmentConfig(variable: Option<string>): (p: EnvironmentProfile)
    ensures p.baseUrl == "https://www.youtube.com"
    ensures p.retryCount == if variable == Some("ci") || variable == Some("staging") then 3 else 2
  {
    var env := match variable case Some(v) => v case None => "local";
    GetOr(ProfileTable, env, ProfileTable["local"])
  }

  /** Where both configurations know an environment by its exact lower-case
      name, the fixture's retry count is the environment's `max_attempts`. */
  lemma EnvironmentConfigAgreesWithRetryTable(name: string)
    requires name in ProfileTable
    requires Environments.NewEnvironmentConfig(None, Some(name)).Ok?
    ensures EnvironmentConfig(Some(name)).retryCount
            == Environments.Retry(Environments.NewEnvironmentConfig(None, Some(name)).value).maxAttempts
  {
    var c := Environments.NewEnvironmentConfig(None, Some(name)).value;
    assert Environments.Value(c.environment) == Text.Lower(name);
    assert name == "local" || name == "ci" || name == "staging";
    Text.LowerOfLowerCase(name);
  }

  /** The fixture knows only three names, so "prod" gets the local profile's
      two retries, while the PROD environment's table says three. */
  lemma ProdRetryCountsDisagree()
    ensures EnvironmentConfig(Some("prod")).retryCount == 2
    ensures Environments.NewEnvironmentConfig(None, Some("prod")).Ok?
    ensures Environments.Retry(Environments.NewEnvironmentConfig(None, Some("prod")).value).maxAttempts == 3
  {
    Text.LowerOfLowerCase("prod");
  }

  /** A width and height read from the test data. */
  datatype ResolutionRecord = ResolutionRecord(width: int, height: int, name: string)

  /** `TestDataHelpers.get_browser_resolutions()`. */
  const DefaultResolutions: seq<(int, int)> := [(1920, 1080), (1366, 768), (1024, 768), (800, 600), (1440, 900)]

  function SizeOf(r: ResolutionRecord): (int, int) {
    (r.width, r.height)
  }

  /** `browser_resolutions(youtube_test_data)`: the records' sizes in order,
      or the helper defaults when the data has none. */
  function BrowserResolutions(records: Option<seq<ResolutionRecord>>): (sizes: seq<(int, int)>)
    ensures sizes != []
    ensures (records.None? || records.value == []) ==> sizes == DefaultResolutions
    ensures records.Some? && records.value != [] ==>
              |sizes| == |records.value|
              && forall k :: 0 <= k < |sizes| ==> sizes[k] == (records.value[k].width, records.value[k].height)
  {
    match records
    case None => DefaultResolutions
    case Some(rs) => if rs == [] then DefaultResolutions else Map(rs, SizeOf)
  }

  /** The metadata fields this model keeps; the execution time is left out. */
  datatype TestMetadata = TestMetadata(browser: string, headless: bool, environment: string, parallel: bool)

  /** `test_metadata()`, with the configuration constants and the
      TEST_ENVIRONMENT variable as parameters. */
  function GetTestMetadata(browser: string, headless: bool, variable: Option<string>, parallelTests: int)
    : (m: TestMetadata)
    ensures m.parallel <==> parallelTests > 1
    ensures m.environment == match variable case Some(v) => v case None => "local"
    ensures m.browser == browser && m.headless == headless
  {
    TestMetadata(browser, headless, match variable case Some(v) => v case None => "local", parallelTests > 1)
  }

  /** A single worker is not a parallel run, whatever else is configured. */
  lemma SingleWorkerIsSequential(browser: string, headless: bool, variable: Option<string>, parallelTests: int)
    requires parallelTests <= 1
    ensures !GetTestMetadata(browser, headless, variable, parallelTests).parallel
  {
  }

  /** The metadata reads TEST_ENVIRONMENT as `EnvironmentConfig` does
      without an argument, so it reports the name the configuration was
      built from. */
  lemma TestMetadataEnvironmentIsChosenName(browser: string, headless: bool, variable: Option<string>,
                                            parallelTests: int)
    ensures GetTestMetadata(browser, headless, variable, parallelTests).environment
            == Environments.ChosenName(None, variable)
    ensures Environments.NewEnvironmentConfig(None, variable).Ok? ==>
              GetTestMetadata(browser, headless, variable, parallelTests).environment
              == Environments.GetAllConfigs(Environments.NewEnvironmentConfig(None, variable).value).environment
  {
  }

  /** The file name `save_test_results` writes to, at time `now`. */
  function ResultFilename(testName: string, now: DateTime): (name: string)
    requires Formattable(now)
    ensures |name| == |testName| + 21
    ensures name[..|testName|] == testName && name[|testName|] == '_'
    ensures name[|testName| + 16..] == ".json"
    ensures ParseTimestamp(name[|testName| + 1..|testName| + 16]) == Some(WholeSecond(now))
  {
    var name := testName + "_" + Timestamp(now) + ".json";
    assert name[|testName| + 1..|testName| + 16] == Timestamp(now);
    ParseTimestampRoundTrip(now);
    name
  }

  /** Two saves share a file name exactly when they are of the same test and
      fall in the same second; the later one then overwrites the earlier. */
  lemma ResultFilenameSameSecond(a: string, d: DateTime, b: string, e: DateTime)
    requires Formattable(d) && Formattable(e)
    ensures ResultFilename(a, d) == ResultFilename(b, e) <==> a == b && WholeSecond(d) == WholeSecond(e)
  {
    TimestampSameSecond(d, e);
    if ResultFilename(a, d) == ResultFilename(b, e) {
      var name := ResultFilename(a, d);
      assert |a| == |b|;
      assert a == name[..|a|] == b;
      assert Timestamp(d) == name[|a| + 1..|a| + 16] == Timestamp(e);
    }
  }

  /** Saving test "t" at 12:00:00.1 and again at 12:00:00.9 writes the same
      file twice. */
  lemma ResultFilenameCollision()
    ensures var d := DateTime(2024, 1, 1, 12, 0, 0, 100000);
            var e := DateTime(2024, 1, 1, 12, 0, 0, 900000);
            d != e && ResultFilename("t", d) == ResultFilename("t", e)
  {
    TimestampDropsMicroseconds();
  }
}
