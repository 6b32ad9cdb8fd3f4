/** `DriverManager`: which browser a name selects, the command-line
    arguments each browser is started with, and the teardown that swallows
    errors. Starting the browser itself is abstracted into a `Launch` record. */
module DriverManager {
  import opened Base
  import opened Text

  /** The browsers `get_driver` can build. */
  datatype Browser = Chrome | Firefox | Edge

  /** The lower-case name that selects each browser. */
  function Name(b: Browser): string {
    match b
    case Chrome => "chrome"
    case Firefox => "firefox"
    case Edge => "edge"
  }

  /** The dispatch of `get_driver` on an already lower-cased name. */
  function ParseBrowser(name: string): (r: Option<Browser>)
    ensures r.Some? ==> Name(r.value) == name
    ensures r.None? ==> forall b: Browser :: Name(b) != name
  {
    if name == "chrome" then Some(Chrome)
    else if name == "firefox" then Some(Firefox)
    else if name == "edge" then Some(Edge)
    else None
  }

  /** The three names are distinct, so a name selects at most one browser. */
  lemma ParseBrowserName(b: Browser)
    ensures ParseBrowser(Name(b)) == Some(b)
  {
  }

  /** The flags Chrome always receives, in order. */
  const ChromeBaseline: seq<string> := [
    "--no-sandbox",
    "--disable-dev-shm-usage",
    "--disable-gpu",
    "--window-size=1920,1080",
    "--disable-extensions",
    "--disable-web-security",
    "--allow-running-insecure-content"
  ]

  /** The flags Firefox always receives. */
  const FirefoxBaseline: seq<string> := ["--width=1920", "--height=1080"]

  /** The flags Edge always receives. */
  const EdgeBaseline: seq<string> := [
    "--no-sandbox",
    "--disable-dev-shm-usage",
    "--disable-gpu",
    "--window-size=1920,1080"
  ]

  function Baseline(b: Browser): seq<string> {
    match b
    case Chrome => ChromeBaseline
    case Firefox => FirefoxBaseline
    case Edge => EdgeBaseline
  }

  /** The arguments `_get_chrome_driver`, `_get_firefox_driver` and
      `_get_edge_driver` add to their options: "--headless" first when
      asked for, then the browser's baseline. */
  function Arguments(b: Browser, headless: bool): (args: seq<string>)
    ensures "--headless" in args <==> headless
    ensures headless ==> args[0] == "--headless" && args[1..] == Baseline(b)
    ensures !headless ==> args == Baseline(b)
  {
    (if headless then ["--headless"] else []) + Baseline(b)
  }

  /** Edge's flags are the first four of Chrome's. */
  lemma EdgeBaselineIsChromePrefix()
    ensures |EdgeBaseline| == 4 && EdgeBaseline == ChromeBaseline[..4]
  {
  }

  /** The argument list tells apart both the browser and the headless flag. */
  lemma ArgumentsInjective(b: Browser, h: bool, c: Browser, k: bool)
    requires Arguments(b, h) == Arguments(c, k)
    ensures b == c && h == k
  {
    assert h == k by {
      assert h <==> "--headless" in Arguments(b, h);
    }
  }

  /** What starting a browser is given: which driver, with which arguments. */
  datatype Launch = Launch(browser: Browser, arguments: seq<string>)

  /** `get_driver(browser, headless)`: the name is lower-cased, then either
      selects a browser or raises `ValueError` without starting anything. */
  function GetDriver(name: string, headless: bool): (r: Result<Launch>)
    ensures r.Ok? <==> Lower(name) in {"chrome", "firefox", "edge"}
    ensures r.Ok? ==> Name(r.value.browser) == Lower(name)
                      && r.value.arguments == Arguments(r.value.browser, headless)
    ensures r.Raise? ==> "ValueError" in r.fault.classes
                         && r.fault.message == "Unsupported browser: " + Lower(name)
  {
    var lowered := Lower(name);
    match ParseBrowser(lowered)
    case Some(b) => Ok(Launch(b, Arguments(b, headless)))
    case None => Raise(ValueError("Unsupported browser: " + lowered))
  }

  /** Matching ignores case: any spelling behaves as its lower-case form. */
  lemma GetDriverIgnoresCase(name: string, headless: bool)
    ensures GetDriver(name, headless) == GetDriver(Lower(name), headless)
  {
    LowerIdempotent(name);
  }

  /** "Chrome" selects Chrome, with the headless flag first. */
  lemma GetDriverChromeExample()
    ensures GetDriver("Chrome", true) == Ok(Launch(Chrome, ["--headless"] + ChromeBaseline))
  {
    assert Lower("Chrome") == "chrome" by {
      assert forall i :: 0 <= i < 6 ==> Lower("Chrome")[i] == "chrome"[i];
    }
    assert ParseBrowser("chrome") == Some(Chrome);
  }

  /** "safari" is refused, with its name in the message. */
  lemma GetDriverSafariExample()
    ensures GetDriver("safari", false) == Raise(ValueError("Unsupported browser: safari"))
  {
    LowerOfLowerCase("safari");
    assert ParseBrowser("safari") == None;
  }

  /** A running driver, as far as teardown is concerned: what its `quit()`
      raises, if anything. */
  datatype Session = Session(launch: Launch, quitFault: Option<Fault>)

  /** The effect of `quit_driver`: whether `quit()` was called, and the
      lines it printed. */
  datatype Teardown = Teardown(quitCalled: bool, log: seq<string>)

  /** `quit_driver(driver)`: nothing for `None`; otherwise `quit()` is called
      and an `Exception` it raises is reported, not propagated. */
  function QuitDriver(driver: Option<Session>): (r: Result<Teardown>)
    ensures driver.None? ==> r == Ok(Teardown(false, []))
    ensures r.Raise? <==> driver.Some? && driver.value.quitFault.Some?
                          && !IsException(driver.value.quitFault.value)
    ensures r.Raise? ==> r.fault == driver.value.quitFault.value
    ensures r.Ok? && driver.Some? ==> r.value.quitCalled
    ensures r.Ok? ==> (r.value.log != [] <==> driver.Some? && driver.value.quitFault.Some?)
    ensures r.Ok? && r.value.log != [] ==>
              r.value.log == ["Error closing driver: " + driver.value.quitFault.value.message]
  {
    match driver
    case None => Ok(Teardown(false, []))
    case Some(session) =>
      match session.quitFault
      case None => Ok(Teardown(true, []))
      case Some(f) =>
        if IsException(f) then Ok(Teardown(true, ["Error closing driver: " + f.message]))
        else Raise(f)
  }

  /** Teardown never raises an `Exception`: whatever `quit()` throws that
      derives from `Exception` ends up in the log. */
  lemma QuitDriverNeverRaisesException(driver: Option<Session>)
    requires driver.Some? && driver.value.quitFault.Some? ==> IsException(driver.value.quitFault.value)
    ensures QuitDriver(driver).Ok?
  {
  }
}
