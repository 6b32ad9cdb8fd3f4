# YouTube UI test suite: the pure logic, modelled in Dafny

The suite drives YouTube through Selenium. Under the browser calls it has a
few pieces of plain sequential logic, and this project models them as pure
functions over immutable values and proves what they guarantee:

- **Retry helpers** (`WaitHelpers.wait_and_retry`, `RetryHelpers.retry_on_exception`,
  `RetryHelpers.retry_until_success`). Each is one generic loop over a script
  of what `func` does on each invocation: it returns a value or raises a fault
  with a set of exception class names. A call is modelled by its `Run`: how it
  exits, how many invocations it made and how many times it slept. A
  negative `delay` makes the first sleep raise `ValueError` and end the call.
- **`ValidationHelpers`**: URL substring tests and title, channel-name and
  view-count checks. These use Python's exact `str.isspace` set and
  `str.strip`, an ASCII `str.lower` and substring `in`.
- **`DriverManager`**:
  - browser-name dispatch, the command-line flags of each browser, and the
    `ValueError` for unknown names;
  - a teardown that never lets an `Exception` escape.
- **Test data**:
  - the three-way partition of `validate_search_terms`;
  - the context, browser and search-term lookups with their fallbacks;
  - the timestamped search term.
- **Page objects** (`SearchPage`, `VideoPage`). The elements a locator found
  are an input sequence of records, and clicks and keystrokes are returned as
  values. Modelled: filters, index guards, the first-match suggestion click,
  the case-insensitive search verification and the bounded video-load poll.
- **`Environments`**:
  - the `Environment` enum;
  - case-insensitive construction of `EnvironmentConfig`;
  - the six property tables, proved total over the enum;
  - `get_all_configs` and the per-environment search terms.
- **Fixtures**:
  - the result collector as a record replayed over a sequence of calls;
  - `environment_config` and `browser_resolutions` with their fallbacks;
  - the metadata `parallel` flag;
  - the results file name.

Support modules:

- `Base`: `Option`, `Result`, a Python fault with its class names, `except` matching and `dict.get`.
- `Text`: Python string predicates, `str.lower` and `repr` of a string.
- `Seqs`: filter and map with their append and partition lemmas.
- `Numerals`: zero-padded decimal numerals with round trips.
- `Clock`: `strftime("%Y%m%d_%H%M%S")` and its parser, proved inverse up to the dropped microseconds.
- `Elements`: found elements and the guarded click.

Settings read from the process environment are parameters: `TEST_ENVIRONMENT`
and the `config.py` constants. So are the clock and the outcomes of browser
calls.

No helper swallows an exception on every attempt: `wait_and_retry` and
`retry_on_exception` re-raise the exception of the last attempt, and
`retry_until_success` does not catch at all. `RetryHelpers.AlwaysRaising`
states what each of the three helpers does when `func` always raises.

The `%Y%m%d_%H%M%S` timestamps drop the microseconds of `datetime.now()`.
Two results saved for one test within the same second therefore get the same
file name (`Fixtures.ResultFilenameCollision`). Two timestamped search terms
made within the same second are equal (`TestData.TimestampedSearchTermCollision`).

## Model

| member | source | states |
|---|---|---|
| RetryHelpers.Sleep | utils/test_helpers.py:71 | `time.sleep(delay)` at the end of an iteration: the loop goes on after one sleep iff `delay >= 0`, and otherwise the call ends with `ValueError("sleep length must be non-negative")` |
| RetryHelpers.Loop | utils/test_helpers.py:63-72 | The `range(max_attempts)` loop from a given attempt: no invocation when no attempt is left, otherwise at least one and at most one per remaining attempt |
| RetryHelpers.LoopExplained | utils/test_helpers.py:63-72 | The last invocation explains the exit (a stopping decision, or running out after the final attempt), every earlier invocation went on, and the sleeps are exactly the sleeping decisions among the invocations made |
| RetryHelpers.WaitAndRetry | utils/test_helpers.py:62-72 | Never more than `max(max_attempts, 0)` calls. A returned value is the last invocation's truthy result. A raise follows an invocation that raised: an `Exception` before the final attempt can only end the call through a negative `delay`'s sleep error, and otherwise the invocation's own fault escapes. `False` comes only after all attempts, with the last one falsy; `None` is never returned; a negative `delay` never sleeps |
| RetryHelpers.WaitAndRetryLoop | utils/test_helpers.py:63-72 | With at least one attempt, the last invocation explains how `wait_and_retry` exits, and a negative `delay` leaves no sleep |
| RetryHelpers.WaitAndRetrySleeps | utils/test_helpers.py:65-71 | Over attempts that neither succeed nor end the loop, the sleeps equal the number of exceptions: a falsy result moves on without sleeping |
| RetryHelpers.WaitAndRetryReturnsFirstTruthy | utils/test_helpers.py:63-67 | The first truthy result is returned after exactly i+1 calls, so `func` is not invoked again; the sleeps are the exceptions before it |
| RetryHelpers.WaitAndRetryReraisesOnLastAttempt | utils/test_helpers.py:68-70 | An `Exception` on the final attempt is re-raised after exactly `max_attempts` calls |
| RetryHelpers.WaitAndRetryPropagatesNonException | utils/test_helpers.py:64-68 | A fault that is not an `Exception` (e.g. `KeyboardInterrupt`) escapes at once, without further attempts |
| RetryHelpers.WaitAndRetryGivesUp | utils/test_helpers.py:63-72 | When every attempt moves on and the last is falsy, the result is `False` after `max(max_attempts, 0)` calls, including zero calls when `max_attempts <= 0` |
| RetryHelpers.WaitAndRetryAllFalsy | utils/test_helpers.py:63-72 | All-falsy attempts give `False` after exactly `max(max_attempts, 0)` calls and no sleep, whatever `delay` is |
| RetryHelpers.WaitAndRetryNegativeDelay | utils/test_helpers.py:68-71 | With a negative `delay`, the first `Exception` before the final attempt ends the call with the sleep's `ValueError`, after i+1 calls and no sleep |
| RetryHelpers.DefaultHandlersCatchExceptions | utils/test_helpers.py:271 | The default `exceptions=(Exception,)` catches exactly the faults that derive from `Exception` |
| RetryHelpers.RetryOnException | utils/test_helpers.py:271-279 | `None` exactly when `max_attempts <= 0`, and never `False`. A returned value is the last invocation's result, whatever its truthiness. A caught fault before the final attempt can only end the call through a negative `delay`'s sleep error; otherwise the invocation's own fault escapes. One sleep follows every call but the last, and a negative `delay` allows at most one call |
| RetryHelpers.RetryOnExceptionLoop | utils/test_helpers.py:272-278 | With at least one attempt, the last invocation explains how `retry_on_exception` exits, every earlier one slept, and a negative `delay` allows exactly one call |
| RetryHelpers.RetryOnExceptionSleeps | utils/test_helpers.py:276-279 | When an invocation ends the loop, every invocation before it slept once and it did not |
| RetryHelpers.RetryOnExceptionReturnsFirstResult | utils/test_helpers.py:272-275 | The first non-raising result is returned, even when falsy, after i+1 calls and i sleeps |
| RetryHelpers.RetryOnExceptionPropagatesUncaught | utils/test_helpers.py:274-275 | A fault outside `exceptions` propagates at the attempt that raised it, without retry |
| RetryHelpers.RetryOnExceptionReraisesOnLastAttempt | utils/test_helpers.py:276-278 | When every attempt raises a caught fault, the last one is re-raised after `max_attempts` calls and `max_attempts - 1` sleeps |
| RetryHelpers.RetryOnExceptionNegativeDelay | utils/test_helpers.py:276-279 | With a negative `delay` and more than one attempt, a caught fault on the first attempt ends the call with the sleep's `ValueError` after one call |
| RetryHelpers.RetryUntilSuccess | utils/test_helpers.py:282-288 | At most `max(max_attempts, 0)` calls. A returned value is truthy. A raise follows either an invocation that raised, whose fault escapes, or a falsy one whose sleep failed on a negative `delay`. `False` means every attempt was made with a sleep after each, including the last; otherwise there is one sleep fewer than calls. A negative `delay` allows at most one call |
| RetryHelpers.RetryUntilSuccessLoop | utils/test_helpers.py:283-288 | With at least one attempt, the last invocation explains how `retry_until_success` exits, every earlier one was falsy and slept, and a negative `delay` allows exactly one call |
| RetryHelpers.RetryUntilSuccessSleeps | utils/test_helpers.py:283-288 | Every invocation up to a given one that went on slept once, including a falsy final attempt |
| RetryHelpers.RetryUntilSuccessReturnsFirstTruthy | utils/test_helpers.py:284-287 | The first truthy result is returned after i+1 calls and i sleeps |
| RetryHelpers.RetryUntilSuccessPropagatesFault | utils/test_helpers.py:284-285 | Exceptions are not caught: the first fault escapes at once |
| RetryHelpers.RetryUntilSuccessAllFalsy | utils/test_helpers.py:283-288 | All-falsy attempts with a non-negative `delay` give `False` after `max(max_attempts, 0)` calls and as many sleeps |
| RetryHelpers.RetryUntilSuccessNegativeDelay | utils/test_helpers.py:285-287 | With a negative `delay`, a falsy first result ends the call with the sleep's `ValueError` after one call, even when it was the only attempt |
| RetryHelpers.AlwaysRaising | utils/test_helpers.py:62-72 | With three attempts, the default delays and a `func` that always raises an `Exception`, no helper returns a falsy sentinel. `wait_and_retry` and `retry_on_exception` raise after 3 calls and 2 sleeps, and `retry_until_success` raises after 1 call |
| ValidationHelpers.IsValidYoutubeUrlIffDomain | utils/test_helpers.py:125-127 | A URL is accepted iff it contains "youtube.com": the other two listed domains contain it |
| ValidationHelpers.ResultsUrlIsSearchUrl | utils/test_helpers.py:130-135 | Every results-page URL built from the search base is a valid YouTube URL and a search URL |
| ValidationHelpers.WatchUrlIsVideoUrl | utils/test_helpers.py:130-131 | Every watch URL is a valid YouTube URL and a video URL |
| ValidationHelpers.ValidateText | utils/test_helpers.py:138-143 | True iff some character is not whitespace and the unstripped length is within the limit |
| ValidationHelpers.ValidateVideoTitle | utils/test_helpers.py:138-143 | A title is valid iff it has a non-whitespace character and at most 200 characters, blanks included |
| ValidationHelpers.ValidateChannelName | utils/test_helpers.py:146-151 | The same rule with a limit of 100 |
| ValidationHelpers.ChannelRuleIsStricter | utils/test_helpers.py:138-151 | Every valid channel name is a valid title, but a 150-letter name is a title only. A space-padded 100-letter name fails although its stripped form has 100 letters |
| ValidationHelpers.ViewsMentionsView | utils/test_helpers.py:157-159 | Containing "views" implies containing "view", so that indicator is redundant |
| ValidationHelpers.ValidateViewCount | utils/test_helpers.py:154-159 | True iff the text is non-empty and its lower-cased form contains "view" or "watching" |
| DriverManager.ParseBrowser | utils/driver_manager.py:21-27 | Recognises exactly the three browser names; anything else matches no browser |
| DriverManager.ParseBrowserName | utils/driver_manager.py:21-26 | Parsing a browser's name gives that browser back |
| DriverManager.Arguments | utils/driver_manager.py:34-43 | "--headless" is present iff headless. When present it comes first, followed by exactly the browser's baseline flags (Chrome's seven, Firefox's width and height, Edge's four) |
| DriverManager.EdgeBaselineIsChromePrefix | utils/driver_manager.py:68-71 | Edge's four flags are the first four Chrome flags |
| DriverManager.ArgumentsInjective | utils/driver_manager.py:30-74 | The argument list determines both the browser and the headless flag |
| DriverManager.GetDriver | utils/driver_manager.py:18-28 | Succeeds iff the lower-cased name is chrome, firefox or edge, launching that browser with its arguments. Otherwise it raises `ValueError("Unsupported browser: " + lowered)` and builds no driver |
| DriverManager.GetDriverIgnoresCase | utils/driver_manager.py:19 | Any spelling behaves exactly like its lower-case form |
| DriverManager.GetDriverChromeExample | utils/driver_manager.py:19-22 | "Chrome" launches Chrome, with "--headless" first and then the seven Chrome flags |
| DriverManager.GetDriverSafariExample | utils/driver_manager.py:19-28 | "safari" raises `ValueError("Unsupported browser: safari")` |
| DriverManager.QuitDriver | utils/driver_manager.py:76-82 | `None` does nothing. Otherwise `quit()` is called, and an `Exception` it raises is logged as "Error closing driver: " + message. Only a fault outside `Exception` escapes |
| DriverManager.QuitDriverNeverRaisesException | utils/driver_manager.py:78-82 | Teardown never raises an `Exception` |
| TestData.InvalidTermIsBlank | config/test_data.py:182 | `not term or not term.strip()` holds iff the term is whitespace-only (empty included) |
| TestData.Classify | config/test_data.py:182-188 | One loop step: a blank term goes to "invalid"; any other term goes to "valid", with a "Long term: " warning exactly when it is over 200 characters |
| TestData.ValidateSearchTerms | config/test_data.py:173-190 | The "valid" and "invalid" sizes sum to the input length, every invalid entry is blank and every valid one is not, and there are no more warnings than valid terms |
| TestData.ValidateSearchTermsValid | config/test_data.py:181-188 | "valid" is exactly the non-blank terms, in input order |
| TestData.ValidateSearchTermsInvalid | config/test_data.py:181-183 | "invalid" is exactly the blank terms, in input order |
| TestData.ValidateSearchTermsWarnings | config/test_data.py:184-186 | The warnings are exactly "Long term: " + t for the non-blank terms longer than 200, in order |
| TestData.ValidateSearchTermsPartitions | config/test_data.py:181-188 | "valid" and "invalid" together are a permutation of the input |
| TestData.DefaultInvalidTermsValidation | config/test_data.py:33 | Of the default "invalid" terms, only "" and "   " are rejected, and "xyzxyzxyznonexistent" counts as valid |
| TestData.PerformanceTerms | config/test_data.py:278 | Exactly 100 terms, the i-th being "perf test " followed by i in decimal |
| TestData.PerformanceTermsDistinct | config/test_data.py:278 | The 100 performance terms are pairwise distinct |
| TestData.GetContextData | config/test_data.py:264-284 | A known context gets its profile, and any other context gets the smoke-test profile |
| TestData.ContextMaxResults | config/test_data.py:266-284 | Result limits are 20 for regression and 50 for performance. Every other context, unknown ones included, gets the smoke-test profile with limit 5 |
| TestData.GetBrowserData | config/test_data.py:301-321 | A known browser gets its profile, and any other name gets the Chrome profile |
| TestData.BrowserDataFallback | config/test_data.py:303-321 | Only "firefox" and "edge" differ from Chrome. The lookup is case-sensitive, so "Firefox" gets Chrome's profile |
| TestData.TimestampedSearchTerm | config/test_data.py:257-262 | The term is the base, a space and the 15-character timestamp, from which the construction time is recovered truncated to the second |
| TestData.TimestampedSearchTermSameSecond | config/test_data.py:257-262 | Two terms agree iff their bases agree and their generators were built within the same second |
| TestData.TimestampedSearchTermCollision | config/test_data.py:258-262 | Generators built at 12:00:00.1 and 12:00:00.9 give the same term, although the timestamp is meant to make terms unique |
| TestData.GetSearchTerms | config/test_data.py:52-54 | A missing "search_terms" section or category gives the empty list; otherwise the category's list |
| TestData.DefaultSearchTermsLookup | config/test_data.py:22-54 | With the default data an unknown category is empty, and validating the "invalid" category rejects only its blank terms |
| SearchPage.ResultsCount | pages/search_page.py:23-25 | The number of result elements found |
| SearchPage.HasSearchResults | pages/search_page.py:66-67 | True iff the result count is positive, that is iff some result element was found |
| SearchPage.SearchResultTitles | pages/search_page.py:27-29 | Exactly the non-empty "title" attributes, in page order |
| SearchPage.NonEmptyTexts | pages/search_page.py:31-37 | Exactly the non-empty texts, in page order: used for descriptions, channel names and suggestions |
| SearchPage.ViewCounts | pages/search_page.py:39-41 | Exactly the non-empty texts that mention "views" in any letter case, in page order |
| SearchPage.ViewCountsAreValid | pages/search_page.py:39-41 | Every view count the page reports passes `validate_view_count` |
| SearchPage.ClickFirstSearchResult | pages/search_page.py:43-48 | Clicks result 0, and reports false iff there are no thumbnails |
| SearchPage.ClickSearchResultByIndex | pages/search_page.py:50-55 | Clicks iff `0 <= index < len(thumbnails)`, and then exactly that thumbnail |
| SearchPage.FirstResultIsIndexZero | pages/search_page.py:43-55 | Clicking the first result is clicking by index 0 |
| SearchPage.ClickSearchSuggestion | pages/search_page.py:82-88 | Clicks iff some suggestion's lower-cased text contains the lower-cased target. The one clicked is the first such suggestion, so there is at most one click |
| SearchPage.SearchForNewTerm | pages/search_page.py:69-76 | Without a search box: false, and nothing is typed. With one: clear, type the term, submit, in that order |
| SearchPage.MentionsEmptyTerm | pages/search_page.py:94-108 | The empty term is found iff there is some text at all |
| SearchPage.VerifySearchTermInResults | pages/search_page.py:94-108 | True iff the lower-cased term occurs in some lower-cased non-empty title or description |
| VideoPage.PlayVideo | pages/video_page.py:39-44 | Clicks the player when found, and only otherwise the Play button; it never clicks Pause |
| VideoPage.PauseVideo | pages/video_page.py:46-51 | Clicks the player when found, and only otherwise the Pause button; it never clicks Play |
| VideoPage.PlayAndPauseClickThePlayer | pages/video_page.py:39-51 | With a player present, play and pause both click the player |
| VideoPage.IsVideoPlaying | pages/video_page.py:92-96 | Playing iff a player is found and its "paused" attribute is absent or empty; false without a player |
| VideoPage.IsVideoPaused | pages/video_page.py:98-99 | Always the negation of `is_video_playing` |
| VideoPage.PausedWithoutPlayer | pages/video_page.py:92-99 | A missing player, or a non-empty "paused" attribute, counts as paused |
| VideoPage.SetVolume | pages/video_page.py:120-125 | A script runs iff the player is found and 0 <= volume <= 1, and it writes exactly that volume |
| VideoPage.SetVolumeRejectsOutOfRange | pages/video_page.py:122-125 | An out-of-range volume never reaches the player |
| VideoPage.SkipForward | pages/video_page.py:127-132 | One right-arrow press iff the player is found |
| VideoPage.SkipBackward | pages/video_page.py:134-139 | One left-arrow press iff the player is found |
| VideoPage.SkipIgnoresSeconds | pages/video_page.py:127-139 | The `seconds` argument has no effect |
| VideoPage.RelatedVideosCount | pages/video_page.py:147-149 | The number of related-video elements found |
| VideoPage.ClickRelatedVideo | pages/video_page.py:151-156 | Clicks iff `0 <= index <` the related-video count, and then exactly that video |
| VideoPage.WaitForVideoToLoad | pages/video_page.py:164-169 | Loaded iff one of the first `timeout` checks sees the player, stopping at the first such check. There are at most `max(timeout, 0)` checks and a sleep after each failing one. It is false with no check at all when `timeout <= 0` |
| Environments.FromValue | config/environments.py:5-10 | Finds the member with exactly this value, or none when no member has it |
| Environments.FromValueRoundTrip | config/environments.py:5-10 | Every member is found from its own value |
| Environments.ChosenName | config/environments.py:16 | A non-empty argument wins. Otherwise the variable is used, and "local" when that is unset; an empty variable stays empty |
| Environments.NewEnvironmentConfig | config/environments.py:15-17 | Succeeds iff the lower-cased chosen name is a member's value, keeping the raw name. Otherwise it raises `ValueError` with the enum's message: `repr` of the lower-cased value, then " is not a valid Environment" |
| Environments.NewEnvironmentConfigExamples | config/environments.py:15-17 | No argument and no variable give LOCAL, and so does "". "DEV" beats the variable and keeps its spelling, and an empty variable is rejected |
| Environments.NewEnvironmentConfigIgnoresCase | config/environments.py:17 | A name and its lower-case form are accepted alike and select the same environment |
| Environments.NewEnvironmentConfigUnknownName | config/environments.py:17 | "QA" is rejected with the lower-cased value written as 'qa' |
| Environments.NewEnvironmentConfigEscapesName | config/environments.py:17 | The name `A\B` (one backslash) is rejected with the lower-cased value written as `'a\\b'`, the backslash doubled |
| Text.ReprRoundTrip | config/environments.py:17 | The `repr` that names a rejected value loses nothing: the text between its quotes reads back as the value |
| Text.ReprPlain | config/environments.py:17 | A value without quotes, backslashes or control characters is written between single quotes as it is |
| Text.ReprExamples | config/environments.py:17 | A backslash is written doubled and a tab as `\t` |
| Environments.TablesAreTotal | config/environments.py:21-216 | Every property table and the search-term table have an entry for all five environments, so no `.get` fallback is ever used |
| Environments.BaseUrl | config/environments.py:20-28 | Always "https://www.youtube.com", a valid YouTube URL |
| Environments.Timeouts | config/environments.py:31-64 | In every environment the implicit wait equals the element wait, the page load is three times the element wait, and the video load is at least the element wait |
| Environments.Browser | config/environments.py:67-95 | Headless exactly outside LOCAL and DEV; always Chrome at 1920x1080 |
| Environments.BrowserConfigLaunchesChrome | config/environments.py:67-95 | `get_driver` accepts every environment's browser setting and launches Chrome with the configured headless flag |
| Environments.Retry | config/environments.py:98-121 | Two attempts on LOCAL and DEV, three elsewhere; the delay is at least one second |
| Environments.Parallel | config/environments.py:124-147 | `enabled` holds iff `workers > 1`, iff the environment is not LOCAL |
| Environments.Reporting | config/environments.py:150-183 | Screenshots and HTML always. Video recording only on STAGING and PROD, and Allure everywhere but LOCAL |
| Environments.GetAllConfigs | config/environments.py:185-194 | Collects every property, with the raw `env_name` as "environment" |
| Environments.GetAllConfigsKeepsRawName | config/environments.py:187 | "DEV" is reported as "DEV", not as the enum value "dev" |
| Environments.GetAllConfigsNamesItsEnvironment | config/environments.py:185-194 | For every successfully built configuration, the reported "environment" is the chosen name, and lower-casing it finds the selected environment again |
| Environments.SearchTerms | config/environments.py:201-216 | Five terms: the three common ones, then two specific to the environment |
| Environments.SearchTermsDistinguishEnvironments | config/environments.py:208-214 | Different environments get different search terms |
| Fixtures.Apply | fixtures/test_fixtures.py:189-205 | Each setter overwrites only its own field, and each adder appends to the end of its own list; every other field is unchanged |
| Fixtures.Replay | fixtures/test_fixtures.py:176-208 | A fresh collector has name "", status "unknown", duration 0.0 and three empty lists. Each call adds at most one list entry |
| Fixtures.ReplayCollectsErrors | fixtures/test_fixtures.py:201-202 | The reported errors are exactly the added ones, in the order added |
| Fixtures.LastName | fixtures/test_fixtures.py:189-190 | The argument of a `set_test_name` call that no later `set_test_name` follows, or none when no call sets the name |
| Fixtures.ReplayKeepsLastName | fixtures/test_fixtures.py:176-190 | The reported name is the last one set, or "" |
| Fixtures.EnvironmentConfig | fixtures/test_fixtures.py:243-265 | The YouTube base URL always. Three retries for exactly "ci" and "staging"; any other name, or none, gets the local profile's two |
| Fixtures.EnvironmentConfigAgreesWithRetryTable | fixtures/test_fixtures.py:247-262 | For the names both configurations know, the fixture's retry count equals that environment's `max_attempts` |
| Fixtures.ProdRetryCountsDisagree | fixtures/test_fixtures.py:265 | For "prod" the fixture falls back to two retries, while the PROD environment table says three |
| Fixtures.BrowserResolutions | fixtures/test_fixtures.py:79-84 | Missing or empty records give the five helper defaults. Otherwise each record's (width, height), in order; never empty |
| Fixtures.GetTestMetadata | fixtures/test_fixtures.py:145-153 | `parallel` iff more than one worker; the environment is the variable or "local"; browser and headless are passed through |
| Fixtures.SingleWorkerIsSequential | fixtures/test_fixtures.py:152 | One worker or fewer is never reported as parallel |
| Fixtures.TestMetadataEnvironmentIsChosenName | fixtures/test_fixtures.py:151 | The metadata environment is the name `EnvironmentConfig()` chooses from TEST_ENVIRONMENT without an argument, and the "environment" its `get_all_configs` reports |
| Fixtures.ResultFilename | fixtures/test_fixtures.py:29-30 | The name is the test name, "_", the timestamp and ".json", and the save time can be read back from it truncated to the second |
| Fixtures.ResultFilenameSameSecond | fixtures/test_fixtures.py:29-30 | Two saves share a file name iff they are of the same test and fall in the same second |
| Fixtures.ResultFilenameCollision | fixtures/test_fixtures.py:29-30 | Saving test "t" at 12:00:00.1 and at 12:00:00.9 writes the same file, so the second save overwrites the first |
| Clock.ParseTimestampRoundTrip | fixtures/test_fixtures.py:29 | Parsing a `%Y%m%d_%H%M%S` timestamp gives back the time it was made from, truncated to the second |
| Clock.TimestampSameSecond | config/test_data.py:258 | Two times give the same timestamp iff they fall in the same second |
| Clock.TimestampDropsMicroseconds | config/test_data.py:258 | Two different times within one second give the same timestamp |

## Left out

- Browser I/O: locating elements, waits, clicks, typing, scripts and driver launches. Their outcomes are inputs, and clicks and keys are returned values. `pages/base_page.py` and `pages/home_page.py` are not part of this model beyond that.
- Sleep durations: only the number of sleeps and the sign of `delay` are modelled. A `delay` that is NaN or not a number is not modelled.
- The driver-service download and the `webdriver` constructors: a launch is the browser plus its argument list.
- DriverManager.GetDriver: lower-cases ASCII letters only, not the full Unicode mapping of `str.lower`. The same holds wherever `Text.Lower` stands for `str.lower`.
- Environments.NewEnvironmentConfig: in the error message, `Text.Repr` keeps every non-ASCII character as it is. Python's `repr` also escapes the non-printable ones, such as U+00A0 as `\xa0`, because its printable set comes from the Unicode database.
- Clock.ParseTimestampRoundTrip: years outside 1000..9999 are excluded, because `%Y` padding below 1000 depends on the platform.
- Float-valued settings: timeout multipliers and performance baselines. `TestData.GetContextData`, `TestData.GetBrowserData` and `Fixtures.EnvironmentConfig` return the profiles without them.
- Fixtures.GetTestMetadata: the `execution_time` field (a clock read) is not modelled.
- Fixtures.Replay: `get_results()` returns a shallow copy whose lists alias the collector's. It is modelled as a value copy.
- Fixtures.BrowserResolutions: a record without "width" or "height" raises `KeyError` in Python. Records here always have both fields.
- VideoPage.SetVolume: NaN is not modelled. The volume is a real number.
- JSON load and save (`_load_data`, `_save_data`, `load_test_data`, `save_test_results`' write, `validate_test_data_file`): file I/O. Only the file name is modelled.
- `validate_urls`: regular-expression semantics.
- Random generators (`generate_search_terms`, `get_random_search_term`) and `get_test_users`.
- `config/config.py`: its constants, read from the environment at import, are parameters.
- `utils/screenshot_utils.py`, `tests/` and `tests/conftest.py`: file system, image handling and assertions against the live site.
- Page-object methods that only click a locator or read one element's text (mute, fullscreen, like, subscribe, filters, scrolling, durations): pure browser pass-throughs.
- Parallel execution of tests.
