/** `config/environments.py`: the five test environments, how a name picks
    one, and the per-environment property tables. */
module Environments {
  import opened Base
  import opened Text
  import opened ValidationHelpers
  import opened DriverManager

  datatype Environment = Local | Dev | Staging | Prod | Ci

  /** The enum member's value. */
  function Value(e: Environment): string {
    match e
    case Local => "local"
    case Dev => "dev"
    case Staging => "staging"
    case Prod => "prod"
    case Ci => "ci"
  }

  /** `Environment(value)` on success: the member with that exact value. */
  function FromValue(value: string): (r: Option<Environment>)
    ensures r.Some? ==> Value(r.value) == value
    ensures r.None? ==> forall e: Environment :: Value(e) != value
  {
    if value == "local" then Some(Local)
    else if value == "dev" then Some(Dev)
    else if value == "staging" then Some(Staging)
    else if value == "prod" then Some(Prod)
    else if value == "ci" then Some(Ci)
    else None
  }

  /** Every member is found again from its value. */
  lemma FromValueRoundTrip(e: Environment)
    ensures FromValue(Value(e)) == Some(e)
  {
  }

  /** `env_name or os.getenv("TEST_ENVIRONMENT", "local")`: a falsy
      argument (None or "") defers to the variable, and a missing variable
      to "local". A variable set to "" is used as it is. */
  function ChosenName(envName: Option<string>, variable: Option<string>): (name: string)
    ensures envName.Some? && envName.value != "" ==> name == envName.value
    ensures (envName.None? || envName.value == "") && variable.Some? ==> name == variable.value
    ensures (envName.None? || envName.value == "") && variable.None? ==> name == "local"
  {
    if envName.Some? && envName.value != "" then envName.value
    else if variable.Some? then variable.value
    else "local"
  }

  /** An `EnvironmentConfig`: the name as chosen, and the member it parsed to. */
  datatype EnvironmentConfig = EnvironmentConfig(envName: string, environment: Environment)

  /** `EnvironmentConfig(env_name)`, with the TEST_ENVIRONMENT variable as a
      parameter: the chosen name is lower-cased and must be a member's value,
      or the enum raises `ValueError`. */
  function NewEnvironmentConfig(envName: Option<string>, variable: Option<string>): (r: Result<EnvironmentConfig>)
    ensures r.Ok? <==> exists e: Environment :: Value(e) == Lower(ChosenName(envName, variable))
    ensures r.Ok? ==> r.value.envName == ChosenName(envName, variable)
                      && Value(r.value.environment) == Lower(r.value.envName)
    ensures r.Raise? ==> "ValueError" in r.fault.classes
                         && r.fault.message
                            == Repr(Lower(ChosenName(envName, variable))) + " is not a valid Environment"
  {
    var name := ChosenName(envName, variable);
    var lowered := Lower(name);
    match FromValue(lowered)
    case Some(e) => Ok(EnvironmentConfig(name, e))
    case None =>
      assert Value(Local) != lowered;
      Raise(ValueError(Repr(lowered) + " is not a valid Environment"))
  }

  /** With neither an argument nor the variable, the environment is LOCAL;
      an upper-case argument parses but keeps its spelling; a variable set to
      the empty string is rejected. */
  lemma NewEnvironmentConfigExamples()
    ensures NewEnvironmentConfig(None, None) == Ok(EnvironmentConfig("local", Local))
    ensures NewEnvironmentConfig(Some(""), None) == Ok(EnvironmentConfig("local", Local))
    ensures NewEnvironmentConfig(Some("DEV"), Some("prod")) == Ok(EnvironmentConfig("DEV", Dev))
    ensures NewEnvironmentConfig(None, Some("")).Raise?
  {
    LowerOfLowerCase("local");
    assert Lower("DEV") == "dev" by {
      assert forall i :: 0 <= i < 3 ==> Lower("DEV")[i] == "dev"[i];
    }
  }

  /** An unknown name is reported through `repr` of its lower-case form:
      "QA" as 'qa'. */
  lemma NewEnvironmentConfigUnknownName()
    ensures NewEnvironmentConfig(Some("QA"), None) == Raise(ValueError(Repr("qa") + " is not a valid Environment"))
    ensures Repr("qa") == "'qa'"
  {
    assert ChosenName(Some("QA"), None) == "QA";
    assert Lower("QA") == "qa" by {
      assert forall i :: 0 <= i < 2 ==> Lower("QA")[i] == "qa"[i];
    }
    assert FromValue("qa") == None;
    ReprPlain("qa");
  }

  /** "A\\B" is reported as 'a\\\\b': lower-cased, with the backslash
      doubled. */
  lemma NewEnvironmentConfigEscapesName()
    ensures NewEnvironmentConfig(Some("A\\B"), None)
            == Raise(ValueError(Repr("a\\b") + " is not a valid Environment"))
    ensures Repr("a\\b") == "'a\\\\b'"
  {
    assert ChosenName(Some("A\\B"), None) == "A\\B";
    assert Lower("A\\B") == "a\\b" by {
      assert forall i :: 0 <= i < 3 ==> Lower("A\\B")[i] == "a\\b"[i];
    }
    assert FromValue("a\\b") == None;
    ReprExamples();
  }

  /** Parsing ignores case: a name and its lower-case form pick the same
      environment, and fail together. */
  lemma NewEnvironmentConfigIgnoresCase(name: string)
    requires name != ""
    ensures NewEnvironmentConfig(Some(name), None).Ok? == NewEnvironmentConfig(Some(Lower(name)), None).Ok?
    ensures NewEnvironmentConfig(Some(name), None).Ok? ==>
              NewEnvironmentConfig(Some(name), None).value.environment
              == NewEnvironmentConfig(Some(Lower(name)), None).value.environment
  {
    LowerIdempotent(name);
  }

  /** The `base_url` table. */
  const BaseUrlTable: map<Environment, string> := map[
    Local := "https://www.youtube.com",
    Dev := "https://www.youtube.com",
    Staging := "https://www.youtube.com",
    Prod := "https://www.youtube.com",
    Ci := "https://www.youtube.com"
  ]

  /** `base_url`: the same YouTube address everywhere. */
  function BaseUrl(c: EnvironmentConfig): (url: string)
    ensures url == "https://www.youtube.com"
    ensures IsValidYoutubeUrl(url)
  {
    ContainsMiddle("https://www.", "youtube.com", "");
    assert "https://www." + "youtube.com" + "" == "https://www.youtube.com";
    IsValidYoutubeUrlIffDomain("https://www.youtube.com");
    TablesAreTotal(c.environment);
    GetOr(BaseUrlTable, c.environment, "https://www.youtube.com")
  }

  datatype TimeoutConfig = TimeoutConfig(elementWait: nat, pageLoad: nat, videoLoad: nat, implicitWait: nat)

  const TimeoutTable: map<Environment, TimeoutConfig> := map[
    Local := TimeoutConfig(10, 30, 15, 10),
    Dev := TimeoutConfig(15, 45, 20, 15),
    Staging := TimeoutConfig(15, 45, 20, 15),
    Prod := TimeoutConfig(20, 60, 25, 20),
    Ci := TimeoutConfig(20, 60, 30, 20)
  ]

  /** `timeout_config`: in every environment the implicit wait equals the
      element wait, the page-load timeout is three times it, and the video
      gets at least as long as an element. */
  function Timeouts(c: EnvironmentConfig): (t: TimeoutConfig)
    ensures t.implicitWait == t.elementWait && t.pageLoad == 3 * t.elementWait
    ensures t.elementWait <= t.videoLoad
  {
    TablesAreTotal(c.environment);
    GetOr(TimeoutTable, c.environment, TimeoutTable[Local])
  }

  datatype BrowserConfig = BrowserConfig(headless: bool, windowSize: (nat, nat), browser: string)

  const BrowserTable: map<Environment, BrowserConfig> := map[
    Local := BrowserConfig(false, (1920, 1080), "chrome"),
    Dev := BrowserConfig(false, (1920, 1080), "chrome"),
    Staging := BrowserConfig(true, (1920, 1080), "chrome"),
    Prod := BrowserConfig(true, (1920, 1080), "chrome"),
    Ci := BrowserConfig(true, (1920, 1080), "chrome")
  ]

  /** `browser_config`: Chrome at 1920x1080 everywhere, headless everywhere
      except LOCAL and DEV. */
  function Browser(c: EnvironmentConfig): (b: BrowserConfig)
    ensures b.headless <==> c.environment != Local && c.environment != Dev
    ensures b.browser == "chrome" && b.windowSize == (1920, 1080)
  {
    TablesAreTotal(c.environment);
    GetOr(BrowserTable, c.environment, BrowserTable[Local])
  }

  /** The configured browser is one `get_driver` accepts: Chrome, headless
      exactly as configured. */
  lemma BrowserConfigLaunchesChrome(c: EnvironmentConfig)
    ensures GetDriver(Browser(c).browser, Browser(c).headless)
            == Ok(Launch(Chrome, Arguments(Chrome, Browser(c).headless)))
  {
    var b := Browser(c);
    LowerOfLowerCase("chrome");
  }

  datatype RetryConfig = RetryConfig(maxAttempts: nat, delay: nat)

  const RetryTable: map<Environment, RetryConfig> := map[
    Local := RetryConfig(2, 1),
    Dev := RetryConfig(2, 1),
    Staging := RetryConfig(3, 2),
    Prod := RetryConfig(3, 2),
    Ci := RetryConfig(3, 3)
  ]

  /** `retry_config`: two attempts on LOCAL and DEV, three elsewhere. */
  function Retry(c: EnvironmentConfig): (r: RetryConfig)
    ensures r.maxAttempts == if c.environment == Local || c.environment == Dev then 2 else 3
    ensures r.delay >= 1
  {
    TablesAreTotal(c.environment);
    GetOr(RetryTable, c.environment, RetryTable[Local])
  }

  datatype ParallelConfig = ParallelConfig(enabled: bool, workers: nat)

  const ParallelTable: map<Environment, ParallelConfig> := map[
    Local := ParallelConfig(false, 1),
    Dev := ParallelConfig(true, 2),
    Staging := ParallelConfig(true, 4),
    Prod := ParallelConfig(true, 4),
    Ci := ParallelConfig(true, 4)
  ]

  /** `parallel_config`: parallelism is on exactly when there is more than
      one worker, which is everywhere but LOCAL. */
  function Parallel(c: EnvironmentConfig): (p: ParallelConfig)
    ensures p.enabled <==> p.workers > 1
    ensures p.enabled <==> c.environment != Local
  {
    TablesAreTotal(c.environment);
    GetOr(ParallelTable, c.environment, ParallelTable[Local])
  }

  datatype ReportingConfig = ReportingConfig(screenshotOnFailure: bool, videoRecording: bool,
                                             htmlReport: bool, allureReport: bool)

  const ReportingTable: map<Environment, ReportingConfig> := map[
    Local := ReportingConfig(true, false, true, false),
    Dev := ReportingConfig(true, false, true, true),
    Staging := ReportingConfig(true, true, true, true),
    Prod := ReportingConfig(true, true, true, true),
    Ci := ReportingConfig(true, false, true, true)
  ]

  /** `reporting_config`: screenshots and HTML reports always; video only on
      STAGING and PROD; Allure everywhere but LOCAL. */
  function Reporting(c: EnvironmentConfig): (r: ReportingConfig)
    ensures r.screenshotOnFailure && r.htmlReport
    ensures r.videoRecording <==> c.environment == Staging || c.environment == Prod
    ensures r.allureReport <==> c.environment != Local
  {
    TablesAreTotal(c.environment);
    GetOr(ReportingTable, c.environment, ReportingTable[Local])
  }

  /** Every table has a row for every environment, so none of the `.get`
      fallbacks is ever taken. */
  lemma TablesAreTotal(e: Environment)
    ensures e in BaseUrlTable && e in TimeoutTable && e in BrowserTable
    ensures e in RetryTable && e in ParallelTable && e in ReportingTable
    ensures e in SearchTermTable
  {
    match e
    case Local =>
    case Dev =>
    case Staging =>
    case Prod =>
    case Ci =>
  }

  datatype AllConfigs = AllConfigs(environment: string, baseUrl: string, timeouts: TimeoutConfig,
                                   browser: BrowserConfig, retry: RetryConfig,
                                   parallel: ParallelConfig, reporting: ReportingConfig)

  /** `get_all_configs()`. */
  function GetAllConfigs(c: EnvironmentConfig): (a: AllConfigs)
    ensures a.environment == c.envName
    ensures a.baseUrl == BaseUrl(c) && a.timeouts == Timeouts(c) && a.browser == Browser(c)
    ensures a.retry == Retry(c) && a.parallel == Parallel(c) && a.reporting == Reporting(c)
  {
    AllConfigs(c.envName, BaseUrl(c), Timeouts(c), Browser(c), Retry(c), Parallel(c), Reporting(c))
  }

  /** The reported "environment" is the name as given, not its lower-case
      value: "DEV" stays "DEV" although it selects DEV's tables. */
  lemma GetAllConfigsKeepsRawName()
    ensures NewEnvironmentConfig(Some("DEV"), None).Ok?
    ensures GetAllConfigs(NewEnvironmentConfig(Some("DEV"), None).value).environment == "DEV"
    ensures GetAllConfigs(NewEnvironmentConfig(Some("DEV"), None).value).environment != Value(Dev)
  {
    NewEnvironmentConfigExamples();
    assert NewEnvironmentConfig(Some("DEV"), None) == NewEnvironmentConfig(Some("DEV"), Some("prod"));
  }

  /** Whatever name built the configuration, the reported "environment"
      lower-cases to the value of the environment it selected, and it is the
      name chosen from the argument and TEST_ENVIRONMENT. */
  lemma GetAllConfigsNamesItsEnvironment(envName: Option<string>, variable: Option<string>)
    requires NewEnvironmentConfig(envName, variable).Ok?
    ensures var c := NewEnvironmentConfig(envName, variable).value;
            FromValue(Lower(GetAllConfigs(c).environment)) == Some(c.environment)
    ensures GetAllConfigs(NewEnvironmentConfig(envName, variable).value).environment == ChosenName(envName, variable)
  {
    var c := NewEnvironmentConfig(envName, variable).value;
    FromValueRoundTrip(c.environment);
  }

  /** The three terms every environment shares. */
  const CommonTerms: seq<string> := ["Python programming", "Selenium automation", "Web development"]

  const SearchTermTable: map<Environment, seq<string>> := map[
    Local := CommonTerms + ["local test", "development"],
    Dev := CommonTerms + ["dev environment", "testing"],
    Staging := CommonTerms + ["staging test", "pre-production"],
    Prod := CommonTerms + ["production test", "live"],
    Ci := CommonTerms + ["ci test", "automated"]
  ]

  /** `EnvironmentTestData.get_search_terms(environment)`: the common terms
      followed by two of the environment's own. */
  function SearchTerms(e: Environment): (terms: seq<string>)
    ensures |terms| == 5 && terms[..3] == CommonTerms
  {
    TablesAreTotal(e);
    GetOr(SearchTermTable, e, CommonTerms)
  }

  /** The two extra terms tell the environments apart. */
  lemma SearchTermsDistinguishEnvironments(e: Environment, f: Environment)
    requires SearchTerms(e) == SearchTerms(f)
    ensures e == f
  {
    var t := SearchTerms(e);
    assert t[3] == SearchTerms(f)[3];
  }
}
