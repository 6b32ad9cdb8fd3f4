/** The three retry loops of the helpers module: `WaitHelpers.wait_and_retry`,
    `RetryHelpers.retry_on_exception` and `RetryHelpers.retry_until_success`.

    The callable `func` is modelled by a script: `script[k]` is what its k-th
    invocation does. A call of a helper is modelled by the `Run` it produces:
    how it exits, how often it invoked `func` and how often it slept. Only
    the sign of `delay` matters: `time.sleep` raises `ValueError` for a
    negative length, which ends the call at its first sleep, and how long a
    sleep lasts is not modelled. */
module RetryHelpers {
  import opened Base

  /** What one invocation of `func` does. */
  datatype Outcome<T> = Returned(value: T) | Raised(fault: Fault)

  /** How a helper call ends: returning `func`'s result, returning its own
      `False` or `None`, or raising. */
  datatype Exit<T> = Return(value: T) | ReturnFalse | ReturnNone | Throw(fault: Fault)

  /** The observable effect of one helper call. */
  datatype Run<T> = Run(exit: Exit<T>, calls: nat, sleeps: nat)

  /** What a helper does after an attempt: leave the loop, or go on to the
      next attempt, sleeping first or not. */
  datatype Step<T> = Stop(exit: Exit<T>) | Next(sleep: bool)

  /** The fault `time.sleep` raises for a negative length. */
  const SleepError: Fault := ValueError("sleep length must be non-negative")

  /** `time.sleep(delay)` as the end of a loop iteration: the loop goes on
      after sleeping, or the call ends with `SleepError` when `delay` is
      negative. The sleep sits outside every `try`, so nothing catches it. */
  function Sleep<T>(delay: real): (s: Step<T>)
    ensures s.Next? <==> delay >= 0.0
    ensures s.Next? ==> s.sleep
    ensures s.Stop? ==> s.exit == Throw(SleepError)
  {
    if delay < 0.0 then Stop(Throw(SleepError)) else Next(true)
  }

  /** The number of iterations of `range(maxAttempts)`. */
  function Attempts(maxAttempts: int): nat {
    if maxAttempts > 0 then maxAttempts else 0
  }

  /** The number of attempts in `[from, to)` after which the loop sleeps. */
  function Slept<T>(script: seq<Outcome<T>>, decide: (Outcome<T>, bool) -> Step<T>,
                    maxAttempts: int, from: nat, to: nat): nat
    requires to <= |script|
    decreases (to as int) - (from as int)
  {
    if from >= to then 0
    else
      var step := decide(script[from], from == maxAttempts - 1);
      (if step.Next? && step.sleep then 1 else 0) + Slept(script, decide, maxAttempts, from + 1, to)
  }

  /** No attempt in `[from, to)` leaves the loop. */
  ghost predicate Continues<T>(script: seq<Outcome<T>>, decide: (Outcome<T>, bool) -> Step<T>,
                               maxAttempts: int, from: nat, to: nat)
    requires to <= |script|
  {
    forall j :: from <= j < to ==> decide(script[j], j == maxAttempts - 1).Next?
  }

  /** `for attempt in range(maxAttempts)`, from `attempt` on: `decide` is
      what the loop body does with the attempt's outcome, given whether it
      was the last attempt, and `exhausted` is what the helper does after
      the loop. It invokes `func` at least once and at most once per
      remaining attempt. */
  function Loop<T>(script: seq<Outcome<T>>, decide: (Outcome<T>, bool) -> Step<T>,
                   exhausted: Exit<T>, maxAttempts: int, attempt: nat): (r: Run<T>)
    requires maxAttempts <= |script|
    decreases maxAttempts - attempt
    ensures attempt >= maxAttempts ==> r.calls == 0 && r.exit == exhausted
    ensures attempt < maxAttempts ==> 1 <= r.calls <= maxAttempts - attempt
  {
    if attempt >= maxAttempts then Run(exhausted, 0, 0)
    else
      match decide(script[attempt], attempt == maxAttempts - 1)
      case Stop(exit) => Run(exit, 1, 0)
      case Next(sleep) =>
        var rest := Loop(script, decide, exhausted, maxAttempts, attempt + 1);
        Run(rest.exit, rest.calls + 1, rest.sleeps + if sleep then 1 else 0)
  }

  /** The last invocation of the loop explains its exit, every earlier one
      went on, and the sleeps are exactly the sleeping decisions among the
      invocations made. */
  lemma {:induction false} LoopExplained<T>(script: seq<Outcome<T>>, decide: (Outcome<T>, bool) -> Step<T>,
                                            exhausted: Exit<T>, maxAttempts: int, attempt: nat)
    requires attempt < maxAttempts <= |script|
    ensures var r := Loop(script, decide, exhausted, maxAttempts, attempt);
      var last := attempt + r.calls - 1;
      var step := decide(script[last], last == maxAttempts - 1);
      || (step.Stop? && step.exit == r.exit)
      || (step.Next? && last == maxAttempts - 1 && r.exit == exhausted)
    ensures var r := Loop(script, decide, exhausted, maxAttempts, attempt);
      Continues(script, decide, maxAttempts, attempt, attempt + r.calls - 1)
    ensures var r := Loop(script, decide, exhausted, maxAttempts, attempt);
      r.sleeps == Slept(script, decide, maxAttempts, attempt, attempt + r.calls)
    decreases maxAttempts - attempt
  {
    var step := decide(script[attempt], attempt == maxAttempts - 1);
    if step.Next? {
      LoopNext(script, decide, exhausted, maxAttempts, attempt);
      if attempt + 1 < maxAttempts {
        LoopExplained(script, decide, exhausted, maxAttempts, attempt + 1);
      }
    }
  }

  /** Attempts that do not leave the loop only add their invocations and
      sleeps to what the rest of the loop does. */
  lemma {:induction false} LoopSkip<T>(script: seq<Outcome<T>>, decide: (Outcome<T>, bool) -> Step<T>,
                                       exhausted: Exit<T>, maxAttempts: int, from: nat, to: nat)
    requires from <= to <= maxAttempts <= |script|
    requires Continues(script, decide, maxAttempts, from, to)
    ensures Loop(script, decide, exhausted, maxAttempts, from)
         == Run(Loop(script, decide, exhausted, maxAttempts, to).exit,
                Loop(script, decide, exhausted, maxAttempts, to).calls + (to - from),
                Loop(script, decide, exhausted, maxAttempts, to).sleeps + Slept(script, decide, maxAttempts, from, to))
    decreases (to as int) - (from as int)
  {
    if from < to {
      var step := decide(script[from], from == maxAttempts - 1);
      assert step.Next?;
      LoopNext(script, decide, exhausted, maxAttempts, from);
      LoopSkip(script, decide, exhausted, maxAttempts, from + 1, to);
      assert Slept(script, decide, maxAttempts, from, to)
          == (if step.sleep then 1 else 0) + Slept(script, decide, maxAttempts, from + 1, to);
    }
  }

  /** An attempt that does not leave the loop adds one invocation, and one
      sleep if it sleeps, to what the rest of the loop does. */
  lemma LoopNext<T>(script: seq<Outcome<T>>, decide: (Outcome<T>, bool) -> Step<T>,
                    exhausted: Exit<T>, maxAttempts: int, attempt: nat)
    requires attempt < maxAttempts <= |script|
    requires decide(script[attempt], attempt == maxAttempts - 1).Next?
    ensures var rest := Loop(script, decide, exhausted, maxAttempts, attempt + 1);
            var sleep := decide(script[attempt], attempt == maxAttempts - 1).sleep;
            Loop(script, decide, exhausted, maxAttempts, attempt)
            == Run(rest.exit, rest.calls + 1, rest.sleeps + if sleep then 1 else 0)
  {
  }

  /** The loop ends at the first attempt that leaves it. */
  lemma LoopStopsAt<T>(script: seq<Outcome<T>>, decide: (Outcome<T>, bool) -> Step<T>,
                       exhausted: Exit<T>, maxAttempts: int, i: nat)
    requires i < maxAttempts <= |script|
    requires Continues(script, decide, maxAttempts, 0, i)
    requires decide(script[i], i == maxAttempts - 1).Stop?
    ensures Loop(script, decide, exhausted, maxAttempts, 0)
         == Run(decide(script[i], i == maxAttempts - 1).exit, i + 1, Slept(script, decide, maxAttempts, 0, i))
  {
    LoopSkip(script, decide, exhausted, maxAttempts, 0, i);
  }

  /** When no attempt leaves the loop, every attempt is made. */
  lemma LoopRunsOut<T>(script: seq<Outcome<T>>, decide: (Outcome<T>, bool) -> Step<T>,
                       exhausted: Exit<T>, maxAttempts: int)
    requires maxAttempts <= |script|
    requires Continues(script, decide, maxAttempts, 0, Attempts(maxAttempts))
    ensures Loop(script, decide, exhausted, maxAttempts, 0)
         == Run(exhausted, Attempts(maxAttempts), Slept(script, decide, maxAttempts, 0, Attempts(maxAttempts)))
  {
    if maxAttempts > 0 {
      LoopSkip(script, decide, exhausted, maxAttempts, 0, maxAttempts);
    }
  }

  /** When every attempt in a range sleeps, the range adds one sleep per attempt. */
  lemma {:induction false} SleptEvery<T>(script: seq<Outcome<T>>, decide: (Outcome<T>, bool) -> Step<T>,
                                         maxAttempts: int, from: nat, to: nat)
    requires from <= to <= |script|
    requires forall j :: from <= j < to ==>
      decide(script[j], j == maxAttempts - 1).Next? && decide(script[j], j == maxAttempts - 1).sleep
    ensures Slept(script, decide, maxAttempts, from, to) == to - from
    decreases (to as int) - (from as int)
  {
    if from < to {
      SleptEvery(script, decide, maxAttempts, from + 1, to);
    }
  }

  /** When no attempt in a range sleeps, the range adds no sleep. */
  lemma {:induction false} SleptNone<T>(script: seq<Outcome<T>>, decide: (Outcome<T>, bool) -> Step<T>,
                                        maxAttempts: int, from: nat, to: nat)
    requires from <= to <= |script|
    requires forall j :: from <= j < to ==> decide(script[j], j == maxAttempts - 1) != Next(true)
    ensures Slept(script, decide, maxAttempts, from, to) == 0
    decreases (to as int) - (from as int)
  {
    if from < to {
      SleptNone(script, decide, maxAttempts, from + 1, to);
    }
  }

  /** Extending a range by one attempt adds that attempt's sleep. */
  lemma {:induction false} SleptSnoc<T>(script: seq<Outcome<T>>, decide: (Outcome<T>, bool) -> Step<T>,
                                        maxAttempts: int, from: nat, to: nat)
    requires from <= to < |script|
    ensures Slept(script, decide, maxAttempts, from, to + 1)
         == Slept(script, decide, maxAttempts, from, to)
            + (if decide(script[to], to == maxAttempts - 1).Next? && decide(script[to], to == maxAttempts - 1).sleep then 1 else 0)
    decreases (to as int) - (from as int)
  {
    if from < to {
      SleptSnoc(script, decide, maxAttempts, from + 1, to);
    }
  }

  /** The number of outcomes that raised. */
  function Raises<T>(outcomes: seq<Outcome<T>>): (n: nat)
    ensures n <= |outcomes|
  {
    if outcomes == [] then 0
    else (if outcomes[0].Raised? then 1 else 0) + Raises(outcomes[1..])
  }

  // ---------------------------------------------------------------------------
  // WaitHelpers.wait_and_retry(func, max_attempts, delay)

  /** An outcome after which `wait_and_retry` goes on when it is not the last
      attempt: a falsy result, or an `Exception` when the sleep after it
      succeeds. */
  predicate WaitAndRetryMovesOn<T>(truthy: T -> bool, delay: real, o: Outcome<T>) {
    match o
    case Returned(v) => !truthy(v)
    case Raised(f) => IsException(f) && delay >= 0.0
  }

  /** The body of `wait_and_retry`'s loop: a truthy result is returned; a
      falsy one moves on without sleeping; an `Exception` is re-raised on the
      last attempt and otherwise followed by a sleep; anything else is not
      caught at all. */
  function WaitAndRetryStep<T>(truthy: T -> bool, delay: real, o: Outcome<T>, last: bool): Step<T> {
    match o
    case Returned(v) => if truthy(v) then Stop(Return(v)) else Next(false)
    case Raised(f) => if IsException(f) && !last then Sleep(delay) else Stop(Throw(f))
  }

  function WaitAndRetryDecision<T>(truthy: T -> bool, delay: real): (Outcome<T>, bool) -> Step<T> {
    (o: Outcome<T>, last: bool) => WaitAndRetryStep(truthy, delay, o, last)
  }

  /** `wait_and_retry(func, max_attempts, delay)`. It returns only truthy
      results, never returns `None`, raises only after an invocation that
      raised, and gives up with `False` only after every attempt. What it
      raises is that invocation's exception, unless the exception was caught
      before the last attempt: then the sleep after it failed on a negative
      `delay`. */
  function WaitAndRetry<T>(script: seq<Outcome<T>>, truthy: T -> bool, maxAttempts: int, delay: real): (r: Run<T>)
    requires maxAttempts <= |script|
    ensures r.calls <= Attempts(maxAttempts)
    ensures r.exit.Return? ==> r.calls >= 1 && script[r.calls - 1] == Returned(r.exit.value) && truthy(r.exit.value)
    ensures r.exit.Throw? ==>
      && r.calls >= 1 && script[r.calls - 1].Raised?
      && if IsException(script[r.calls - 1].fault) && r.calls < maxAttempts
         then delay < 0.0 && r.exit.fault == SleepError
         else r.exit.fault == script[r.calls - 1].fault
    ensures r.exit.ReturnFalse? ==>
      && r.calls == Attempts(maxAttempts)
      && (maxAttempts > 0 ==> script[maxAttempts - 1].Returned? && !truthy(script[maxAttempts - 1].value))
    ensures !r.exit.ReturnNone?
    ensures delay < 0.0 ==> r.sleeps == 0
  {
    var decide := WaitAndRetryDecision(truthy, delay);
    var r := Loop(script, decide, ReturnFalse, maxAttempts, 0);
    if maxAttempts > 0 then
      WaitAndRetryLoop(script, truthy, maxAttempts, delay);
      r
    else
      r
  }

  /** What the loop of `wait_and_retry` does when it makes at least one
      attempt: the last invocation explains the exit, and a negative `delay`
      leaves no sleep among the invocations before it. */
  lemma WaitAndRetryLoop<T>(script: seq<Outcome<T>>, truthy: T -> bool, maxAttempts: int, delay: real)
    requires 0 < maxAttempts <= |script|
    ensures var r := Loop(script, WaitAndRetryDecision(truthy, delay), ReturnFalse, maxAttempts, 0);
      && (r.exit.Return? ==> script[r.calls - 1] == Returned(r.exit.value) && truthy(r.exit.value))
      && (r.exit.Throw? ==>
            && script[r.calls - 1].Raised?
            && if IsException(script[r.calls - 1].fault) && r.calls < maxAttempts
               then delay < 0.0 && r.exit.fault == SleepError
               else r.exit.fault == script[r.calls - 1].fault)
      && (r.exit.ReturnFalse? ==>
            r.calls == maxAttempts && script[maxAttempts - 1].Returned? && !truthy(script[maxAttempts - 1].value))
      && !r.exit.ReturnNone?
      && (delay < 0.0 ==> r.sleeps == 0)
  {
    var decide := WaitAndRetryDecision(truthy, delay);
    var r := Loop(script, decide, ReturnFalse, maxAttempts, 0);
    LoopExplained(script, decide, ReturnFalse, maxAttempts, 0);
    var last := r.calls - 1;
    if delay < 0.0 {
      forall j | 0 <= j < last
        ensures decide(script[j], j == maxAttempts - 1) == Next(false)
      {
        assert decide(script[j], j == maxAttempts - 1).Next?;
      }
      SleptNone(script, decide, maxAttempts, 0, last);
      SleptSnoc(script, decide, maxAttempts, 0, last);
    }
    var step := decide(script[last], last == maxAttempts - 1);
    assert step == WaitAndRetryStep(truthy, delay, script[last], last == maxAttempts - 1);
  }

  /** Before the last attempt, `wait_and_retry` sleeps exactly after the
      invocations that raised. */
  lemma {:induction false} WaitAndRetrySleeps<T>(script: seq<Outcome<T>>, truthy: T -> bool, delay: real,
                                                 maxAttempts: int, from: nat, to: nat)
    requires from <= to < maxAttempts <= |script|
    requires forall j :: from <= j < to ==> WaitAndRetryMovesOn(truthy, delay, script[j])
    ensures Continues(script, WaitAndRetryDecision(truthy, delay), maxAttempts, from, to)
    ensures Slept(script, WaitAndRetryDecision(truthy, delay), maxAttempts, from, to) == Raises(script[from..to])
    decreases (to as int) - (from as int)
  {
    if from < to {
      WaitAndRetrySleeps(script, truthy, delay, maxAttempts, from + 1, to);
      assert script[from..to][1..] == script[from + 1..to];
    }
  }

  /** `wait_and_retry` returns the first truthy result and does not invoke
      `func` again; the exceptions before it were swallowed, each followed
      by a sleep. */
  lemma WaitAndRetryReturnsFirstTruthy<T>(script: seq<Outcome<T>>, truthy: T -> bool, maxAttempts: int, delay: real, i: nat)
    requires i < maxAttempts <= |script|
    requires forall j :: 0 <= j < i ==> WaitAndRetryMovesOn(truthy, delay, script[j])
    requires script[i].Returned? && truthy(script[i].value)
    ensures WaitAndRetry(script, truthy, maxAttempts, delay) == Run(Return(script[i].value), i + 1, Raises(script[..i]))
  {
    WaitAndRetrySleeps(script, truthy, delay, maxAttempts, 0, i);
    LoopStopsAt(script, WaitAndRetryDecision(truthy, delay), ReturnFalse, maxAttempts, i);
  }

  /** An `Exception` on the last attempt is re-raised, after every attempt
      was made. */
  lemma WaitAndRetryReraisesOnLastAttempt<T>(script: seq<Outcome<T>>, truthy: T -> bool, maxAttempts: int, delay: real)
    requires 1 <= maxAttempts <= |script|
    requires forall j :: 0 <= j < maxAttempts - 1 ==> WaitAndRetryMovesOn(truthy, delay, script[j])
    requires script[maxAttempts - 1].Raised? && IsException(script[maxAttempts - 1].fault)
    ensures WaitAndRetry(script, truthy, maxAttempts, delay)
         == Run(Throw(script[maxAttempts - 1].fault), maxAttempts, Raises(script[..maxAttempts - 1]))
  {
    WaitAndRetrySleeps(script, truthy, delay, maxAttempts, 0, maxAttempts - 1);
    LoopStopsAt(script, WaitAndRetryDecision(truthy, delay), ReturnFalse, maxAttempts, maxAttempts - 1);
  }

  /** A fault that is not an `Exception` escapes at once, without retry. */
  lemma WaitAndRetryPropagatesNonException<T>(script: seq<Outcome<T>>, truthy: T -> bool, maxAttempts: int, delay: real, i: nat)
    requires i < maxAttempts <= |script|
    requires forall j :: 0 <= j < i ==> WaitAndRetryMovesOn(truthy, delay, script[j])
    requires script[i].Raised? && !IsException(script[i].fault)
    ensures WaitAndRetry(script, truthy, maxAttempts, delay) == Run(Throw(script[i].fault), i + 1, Raises(script[..i]))
  {
    WaitAndRetrySleeps(script, truthy, delay, maxAttempts, 0, i);
    LoopStopsAt(script, WaitAndRetryDecision(truthy, delay), ReturnFalse, maxAttempts, i);
  }

  /** With a negative `delay`, the first `Exception` caught before the last
      attempt ends the call: the sleep after it raises `SleepError`. */
  lemma WaitAndRetryNegativeDelay<T>(script: seq<Outcome<T>>, truthy: T -> bool, maxAttempts: int, delay: real, i: nat)
    requires i < maxAttempts - 1 && maxAttempts <= |script|
    requires delay < 0.0
    requires forall j :: 0 <= j < i ==> script[j].Returned? && !truthy(script[j].value)
    requires script[i].Raised? && IsException(script[i].fault)
    ensures WaitAndRetry(script, truthy, maxAttempts, delay) == Run(Throw(SleepError), i + 1, 0)
  {
    var decide := WaitAndRetryDecision(truthy, delay);
    WaitAndRetrySleeps(script, truthy, delay, maxAttempts, 0, i);
    LoopStopsAt(script, decide, ReturnFalse, maxAttempts, i);
    NoRaises(script[..i]);
  }

  /** When the last attempt is falsy and no earlier one decided the call,
      `wait_and_retry` returns `False` after every attempt, having slept
      once per swallowed exception; with no attempts at all it returns
      `False` at once. */
  lemma WaitAndRetryGivesUp<T>(script: seq<Outcome<T>>, truthy: T -> bool, maxAttempts: int, delay: real)
    requires maxAttempts <= |script|
    requires forall j :: 0 <= j < maxAttempts - 1 ==> WaitAndRetryMovesOn(truthy, delay, script[j])
    requires maxAttempts > 0 ==> script[maxAttempts - 1].Returned? && !truthy(script[maxAttempts - 1].value)
    ensures WaitAndRetry(script, truthy, maxAttempts, delay)
         == Run(ReturnFalse, Attempts(maxAttempts), Raises(script[..Attempts(maxAttempts)]))
  {
    var decide := WaitAndRetryDecision(truthy, delay);
    if maxAttempts > 0 {
      WaitAndRetrySleeps(script, truthy, delay, maxAttempts, 0, maxAttempts - 1);
      assert decide(script[maxAttempts - 1], true) == Next(false);
      LoopSkip(script, decide, ReturnFalse, maxAttempts, 0, maxAttempts - 1);
      assert script[..maxAttempts] == script[..maxAttempts - 1] + [script[maxAttempts - 1]];
      RaisesAppend(script[..maxAttempts - 1], [script[maxAttempts - 1]]);
    } else {
      LoopRunsOut(script, decide, ReturnFalse, maxAttempts);
    }
  }

  /** A falsy result never triggers a sleep: if every attempt is falsy,
      `wait_and_retry` returns `False` after exactly `max(maxAttempts, 0)`
      invocations and no sleep. */
  lemma WaitAndRetryAllFalsy<T>(script: seq<Outcome<T>>, truthy: T -> bool, maxAttempts: int, delay: real)
    requires maxAttempts <= |script|
    requires forall j :: 0 <= j < maxAttempts ==> script[j].Returned? && !truthy(script[j].value)
    ensures WaitAndRetry(script, truthy, maxAttempts, delay) == Run(ReturnFalse, Attempts(maxAttempts), 0)
  {
    WaitAndRetryGivesUp(script, truthy, maxAttempts, delay);
    NoRaises(script[..Attempts(maxAttempts)]);
  }

  lemma {:induction false} RaisesAppend<T>(a: seq<Outcome<T>>, b: seq<Outcome<T>>)
    ensures Raises(a + b) == Raises(a) + Raises(b)
  {
    if a == [] {
      assert a + b == b;
    } else {
      assert (a + b)[1..] == a[1..] + b;
      RaisesAppend(a[1..], b);
    }
  }

  lemma {:induction false} NoRaises<T>(outcomes: seq<Outcome<T>>)
    requires forall j :: 0 <= j < |outcomes| ==> outcomes[j].Returned?
    ensures Raises(outcomes) == 0
  {
    if outcomes != [] {
      NoRaises(outcomes[1..]);
    }
  }

  // ---------------------------------------------------------------------------
  // RetryHelpers.retry_on_exception(func, max_attempts, delay, exceptions)

  /** The default `exceptions=(Exception,)`. */
  const DefaultHandlers: set<string> := {"Exception"}

  /** The default handlers catch exactly the `Exception`s. */
  lemma DefaultHandlersCatchExceptions(f: Fault)
    ensures Catches(DefaultHandlers, f) <==> IsException(f)
  {
    if IsException(f) {
      assert "Exception" in DefaultHandlers;
    }
  }

  /** The body of `retry_on_exception`'s loop: any result, truthy or not, is
      returned; a caught exception is re-raised on the last attempt and
      otherwise followed by a sleep; any other exception escapes. */
  function RetryOnExceptionStep<T>(handlers: set<string>, delay: real, o: Outcome<T>, last: bool): Step<T> {
    match o
    case Returned(v) => Stop(Return(v))
    case Raised(f) => if Catches(handlers, f) && !last then Sleep(delay) else Stop(Throw(f))
  }

  function RetryOnExceptionDecision<T>(handlers: set<string>, delay: real): (Outcome<T>, bool) -> Step<T> {
    (o: Outcome<T>, last: bool) => RetryOnExceptionStep(handlers, delay, o, last)
  }

  /** `retry_on_exception(func, max_attempts, delay, exceptions=handlers)`.
      It returns `None` exactly when there is no attempt to make, never
      returns `False`, returns the first result that did not raise, and
      raises only after an invocation that raised: that exception when it
      is not caught or the attempt was the last, and otherwise the failure of
      the sleep on a negative `delay`. It sleeps once before every invocation
      but the first, so a negative `delay` allows one invocation only. */
  function RetryOnException<T>(script: seq<Outcome<T>>, handlers: set<string>, maxAttempts: int, delay: real): (r: Run<T>)
    requires maxAttempts <= |script|
    ensures r.calls <= Attempts(maxAttempts)
    ensures r.exit.ReturnNone? <==> maxAttempts <= 0
    ensures !r.exit.ReturnFalse?
    ensures r.exit.Return? ==> r.calls >= 1 && script[r.calls - 1] == Returned(r.exit.value)
    ensures r.exit.Throw? ==>
      && r.calls >= 1 && script[r.calls - 1].Raised?
      && if Catches(handlers, script[r.calls - 1].fault) && r.calls < maxAttempts
         then delay < 0.0 && r.exit.fault == SleepError
         else r.exit.fault == script[r.calls - 1].fault
    ensures r.calls >= 1 ==> r.sleeps == r.calls - 1
    ensures delay < 0.0 ==> r.calls <= 1
  {
    var r := Loop(script, RetryOnExceptionDecision(handlers, delay), ReturnNone, maxAttempts, 0);
    if r.calls >= 1 then
      RetryOnExceptionLoop(script, handlers, maxAttempts, delay);
      r
    else
      r
  }

  /** What the loop of `retry_on_exception` does when it makes at least one
      attempt: the last invocation explains the exit, and a negative `delay`
      allows one invocation only. */
  lemma RetryOnExceptionLoop<T>(script: seq<Outcome<T>>, handlers: set<string>, maxAttempts: int, delay: real)
    requires 0 < maxAttempts <= |script|
    ensures var r := Loop(script, RetryOnExceptionDecision(handlers, delay), ReturnNone, maxAttempts, 0);
      && (r.exit.Return? ==> script[r.calls - 1] == Returned(r.exit.value))
      && (r.exit.Throw? ==>
            && script[r.calls - 1].Raised?
            && if Catches(handlers, script[r.calls - 1].fault) && r.calls < maxAttempts
               then delay < 0.0 && r.exit.fault == SleepError
               else r.exit.fault == script[r.calls - 1].fault)
      && !r.exit.ReturnNone? && !r.exit.ReturnFalse?
      && r.sleeps == r.calls - 1
      && (delay < 0.0 ==> r.calls == 1)
  {
    var decide := RetryOnExceptionDecision<T>(handlers, delay);
    var r := Loop(script, decide, ReturnNone, maxAttempts, 0);
    LoopExplained(script, decide, ReturnNone, maxAttempts, 0);
    var last := r.calls - 1;
    var step := decide(script[last], last == maxAttempts - 1);
    assert step == RetryOnExceptionStep(handlers, delay, script[last], last == maxAttempts - 1);
    RetryOnExceptionSleeps(script, handlers, maxAttempts, delay, last);
  }

  /** When invocation `last` of `retry_on_exception` ends the loop, every
      invocation before it slept. */
  lemma RetryOnExceptionSleeps<T>(script: seq<Outcome<T>>, handlers: set<string>, maxAttempts: int, delay: real,
                                  last: nat)
    requires last < maxAttempts <= |script|
    requires Continues(script, RetryOnExceptionDecision(handlers, delay), maxAttempts, 0, last)
    requires RetryOnExceptionDecision(handlers, delay)(script[last], last == maxAttempts - 1).Stop?
    ensures Slept(script, RetryOnExceptionDecision(handlers, delay), maxAttempts, 0, last + 1) == last
  {
    var decide := RetryOnExceptionDecision<T>(handlers, delay);
    forall j | 0 <= j < last
      ensures decide(script[j], j == maxAttempts - 1).Next? && decide(script[j], j == maxAttempts - 1).sleep
    {
      assert decide(script[j], j == maxAttempts - 1).Next?;
    }
    SleptEvery(script, decide, maxAttempts, 0, last);
    SleptSnoc(script, decide, maxAttempts, 0, last);
    assert decide(script[last], last == maxAttempts - 1)
        == RetryOnExceptionStep(handlers, delay, script[last], last == maxAttempts - 1);
  }

  /** An outcome after which `retry_on_exception` goes on when it is not the
      last attempt: a caught exception, when the sleep after it succeeds. */
  predicate RetryOnExceptionRetries<T>(handlers: set<string>, delay: real, o: Outcome<T>) {
    o.Raised? && Catches(handlers, o.fault) && delay >= 0.0
  }

  /** `retry_on_exception` returns the first result that does not raise,
      even a falsy one, after one sleep per earlier attempt. */
  lemma RetryOnExceptionReturnsFirstResult<T>(script: seq<Outcome<T>>, handlers: set<string>, maxAttempts: int,
                                              delay: real, i: nat)
    requires i < maxAttempts <= |script|
    requires forall j :: 0 <= j < i ==> RetryOnExceptionRetries(handlers, delay, script[j])
    requires script[i].Returned?
    ensures RetryOnException(script, handlers, maxAttempts, delay) == Run(Return(script[i].value), i + 1, i)
  {
    var decide := RetryOnExceptionDecision<T>(handlers, delay);
    assert Continues(script, decide, maxAttempts, 0, i);
    LoopStopsAt(script, decide, ReturnNone, maxAttempts, i);
    SleptEvery(script, decide, maxAttempts, 0, i);
  }

  /** An exception outside `handlers` escapes at once, without retry. */
  lemma RetryOnExceptionPropagatesUncaught<T>(script: seq<Outcome<T>>, handlers: set<string>, maxAttempts: int,
                                              delay: real, i: nat)
    requires i < maxAttempts <= |script|
    requires forall j :: 0 <= j < i ==> RetryOnExceptionRetries(handlers, delay, script[j])
    requires script[i].Raised? && !Catches(handlers, script[i].fault)
    ensures RetryOnException(script, handlers, maxAttempts, delay) == Run(Throw(script[i].fault), i + 1, i)
  {
    var decide := RetryOnExceptionDecision<T>(handlers, delay);
    assert Continues(script, decide, maxAttempts, 0, i);
    LoopStopsAt(script, decide, ReturnNone, maxAttempts, i);
    SleptEvery(script, decide, maxAttempts, 0, i);
  }

  /** When every attempt raises a caught exception, the last one is re-raised. */
  lemma RetryOnExceptionReraisesOnLastAttempt<T>(script: seq<Outcome<T>>, handlers: set<string>, maxAttempts: int,
                                                 delay: real)
    requires 1 <= maxAttempts <= |script|
    requires forall j :: 0 <= j < maxAttempts - 1 ==> RetryOnExceptionRetries(handlers, delay, script[j])
    requires script[maxAttempts - 1].Raised? && Catches(handlers, script[maxAttempts - 1].fault)
    ensures RetryOnException(script, handlers, maxAttempts, delay)
         == Run(Throw(script[maxAttempts - 1].fault), maxAttempts, maxAttempts - 1)
  {
    var decide := RetryOnExceptionDecision<T>(handlers, delay);
    assert Continues(script, decide, maxAttempts, 0, maxAttempts - 1);
    LoopStopsAt(script, decide, ReturnNone, maxAttempts, maxAttempts - 1);
    SleptEvery(script, decide, maxAttempts, 0, maxAttempts - 1);
  }

  /** With a negative `delay`, a caught exception on the first of several
      attempts ends the call: the sleep after it raises `SleepError`. */
  lemma RetryOnExceptionNegativeDelay<T>(script: seq<Outcome<T>>, handlers: set<string>, maxAttempts: int, delay: real)
    requires 1 < maxAttempts <= |script|
    requires delay < 0.0
    requires script[0].Raised? && Catches(handlers, script[0].fault)
    ensures RetryOnException(script, handlers, maxAttempts, delay) == Run(Throw(SleepError), 1, 0)
  {
    var decide := RetryOnExceptionDecision<T>(handlers, delay);
    LoopStopsAt(script, decide, ReturnNone, maxAttempts, 0);
  }

  // ---------------------------------------------------------------------------
  // RetryHelpers.retry_until_success(func, max_attempts, delay)

  /** The body of `retry_until_success`'s loop: a truthy result is returned,
      a falsy one is followed by a sleep, even on the last attempt, and no
      exception is caught. */
  function RetryUntilSuccessStep<T>(truthy: T -> bool, delay: real, o: Outcome<T>, last: bool): Step<T> {
    match o
    case Returned(v) => if truthy(v) then Stop(Return(v)) else Sleep(delay)
    case Raised(f) => Stop(Throw(f))
  }

  function RetryUntilSuccessDecision<T>(truthy: T -> bool, delay: real): (Outcome<T>, bool) -> Step<T> {
    (o: Outcome<T>, last: bool) => RetryUntilSuccessStep(truthy, delay, o, last)
  }

  /** `retry_until_success(func, max_attempts, delay)`. It returns only
      truthy results, lets the first exception escape, and gives up with
      `False` only after every attempt; it sleeps after every invocation
      that did not end the call, so a negative `delay` turns the first falsy
      result into `SleepError`. */
  function RetryUntilSuccess<T>(script: seq<Outcome<T>>, truthy: T -> bool, maxAttempts: int, delay: real): (r: Run<T>)
    requires maxAttempts <= |script|
    ensures r.calls <= Attempts(maxAttempts)
    ensures r.exit.Return? ==> r.calls >= 1 && script[r.calls - 1] == Returned(r.exit.value) && truthy(r.exit.value)
    ensures r.exit.Throw? ==>
      && r.calls >= 1
      && if script[r.calls - 1].Raised? then r.exit.fault == script[r.calls - 1].fault
         else !truthy(script[r.calls - 1].value) && delay < 0.0 && r.exit.fault == SleepError
    ensures r.exit.ReturnFalse? ==> r.calls == Attempts(maxAttempts) && r.sleeps == r.calls
    ensures !r.exit.ReturnNone?
    ensures !r.exit.ReturnFalse? ==> r.sleeps == r.calls - 1
    ensures delay < 0.0 ==> r.calls <= 1
  {
    var r := Loop(script, RetryUntilSuccessDecision(truthy, delay), ReturnFalse, maxAttempts, 0);
    if r.calls == 0 then r
    else
      RetryUntilSuccessLoop(script, truthy, maxAttempts, delay);
      r
  }

  /** What the loop of `retry_until_success` does when it makes at least one
      attempt: every invocation before the last was falsy and slept, and the
      last one explains the exit. */
  lemma RetryUntilSuccessLoop<T>(script: seq<Outcome<T>>, truthy: T -> bool, maxAttempts: int, delay: real)
    requires 0 < maxAttempts <= |script|
    ensures var r := Loop(script, RetryUntilSuccessDecision(truthy, delay), ReturnFalse, maxAttempts, 0);
      && (r.exit.Return? ==> script[r.calls - 1] == Returned(r.exit.value) && truthy(r.exit.value))
      && (r.exit.Throw? ==>
            if script[r.calls - 1].Raised? then r.exit.fault == script[r.calls - 1].fault
            else !truthy(script[r.calls - 1].value) && delay < 0.0 && r.exit.fault == SleepError)
      && (r.exit.ReturnFalse? ==> r.calls == maxAttempts && r.sleeps == r.calls)
      && !r.exit.ReturnNone?
      && (!r.exit.ReturnFalse? ==> r.sleeps == r.calls - 1)
      && (delay < 0.0 ==> r.calls == 1)
  {
    var decide := RetryUntilSuccessDecision(truthy, delay);
    var r := Loop(script, decide, ReturnFalse, maxAttempts, 0);
    LoopExplained(script, decide, ReturnFalse, maxAttempts, 0);
    var last := r.calls - 1;
    var step := decide(script[last], last == maxAttempts - 1);
    assert step == RetryUntilSuccessStep(truthy, delay, script[last], last == maxAttempts - 1);
    RetryUntilSuccessSleeps(script, truthy, maxAttempts, delay, last);
  }

  /** Every invocation of `retry_until_success` up to `last` that went on
      slept. */
  lemma RetryUntilSuccessSleeps<T>(script: seq<Outcome<T>>, truthy: T -> bool, maxAttempts: int, delay: real,
                                   last: nat)
    requires last < maxAttempts <= |script|
    requires Continues(script, RetryUntilSuccessDecision(truthy, delay), maxAttempts, 0, last)
    ensures Slept(script, RetryUntilSuccessDecision(truthy, delay), maxAttempts, 0, last + 1)
         == if RetryUntilSuccessDecision(truthy, delay)(script[last], last == maxAttempts - 1).Next? then last + 1
            else last
  {
    var decide := RetryUntilSuccessDecision(truthy, delay);
    forall j | 0 <= j < last
      ensures decide(script[j], j == maxAttempts - 1).Next? && decide(script[j], j == maxAttempts - 1).sleep
    {
      assert decide(script[j], j == maxAttempts - 1).Next?;
    }
    SleptEvery(script, decide, maxAttempts, 0, last);
    SleptSnoc(script, decide, maxAttempts, 0, last);
    assert decide(script[last], last == maxAttempts - 1)
        == RetryUntilSuccessStep(truthy, delay, script[last], last == maxAttempts - 1);
  }

  /** An outcome after which `retry_until_success` goes on: a falsy result,
      when the sleep after it succeeds. */
  predicate RetryUntilSuccessRetries<T>(truthy: T -> bool, delay: real, o: Outcome<T>) {
    o.Returned? && !truthy(o.value) && delay >= 0.0
  }

  /** `retry_until_success` returns the first truthy result, after one sleep
      per falsy result before it. */

  lemma RetryUntilSuccessReturnsFirstTruthy<T>(script: seq<Outcome<T>>, truthy: T -> bool, maxAttempts: int,
                                               delay: real, i: nat)
    requires i < maxAttempts <= |script|
    requires forall j :: 0 <= j < i ==> RetryUntilSuccessRetries(truthy, delay, script[j])
    requires script[i].Returned? && truthy(script[i].value)
    ensures RetryUntilSuccess(script, truthy, maxAttempts, delay) == Run(Return(script[i].value), i + 1, i)
  {
    var decide := RetryUntilSuccessDecision(truthy, delay);
    assert Continues(script, decide, maxAttempts, 0, i);
    LoopStopsAt(script, decide, ReturnFalse, maxAttempts, i);
  }

  /** An exception escapes `retry_until_success` at once, without retry. */
  lemma RetryUntilSuccessPropagatesFault<T>(script: seq<Outcome<T>>, truthy: T -> bool, maxAttempts: int,
                                             delay: real, i: nat)
    requires i < maxAttempts <= |script|
    requires forall j :: 0 <= j < i ==> RetryUntilSuccessRetries(truthy, delay, script[j])
    requires script[i].Raised?
    ensures RetryUntilSuccess(script, truthy, maxAttempts, delay) == Run(Throw(script[i].fault), i + 1, i)
  {
    var decide := RetryUntilSuccessDecision(truthy, delay);
    assert Continues(script, decide, maxAttempts, 0, i);
    LoopStopsAt(script, decide, ReturnFalse, maxAttempts, i);
  }

  /** If every attempt is falsy, `retry_until_success` returns `False` after
      `max(maxAttempts, 0)` invocations, each followed by a sleep, the last
      one included. */
  lemma RetryUntilSuccessAllFalsy<T>(script: seq<Outcome<T>>, truthy: T -> bool, maxAttempts: int, delay: real)
    requires maxAttempts <= |script|
    requires forall j :: 0 <= j < maxAttempts ==> RetryUntilSuccessRetries(truthy, delay, script[j])
    ensures RetryUntilSuccess(script, truthy, maxAttempts, delay)
         == Run(ReturnFalse, Attempts(maxAttempts), Attempts(maxAttempts))
  {
    var decide := RetryUntilSuccessDecision(truthy, delay);
    assert Continues(script, decide, maxAttempts, 0, Attempts(maxAttempts));
    LoopRunsOut(script, decide, ReturnFalse, maxAttempts);
  }

  /** With a negative `delay`, a falsy first result ends the call: the sleep
      after it raises `SleepError`, even when it was the only attempt. */
  lemma RetryUntilSuccessNegativeDelay<T>(script: seq<Outcome<T>>, truthy: T -> bool, maxAttempts: int, delay: real)
    requires 0 < maxAttempts <= |script|
    requires delay < 0.0
    requires script[0].Returned? && !truthy(script[0].value)
    ensures RetryUntilSuccess(script, truthy, maxAttempts, delay) == Run(Throw(SleepError), 1, 0)
  {
    var decide := RetryUntilSuccessDecision(truthy, delay);
    LoopStopsAt(script, decide, ReturnFalse, maxAttempts, 0);
  }

  // ---------------------------------------------------------------------------

  /** With three attempts and a `func` that always raises an `Exception`,
      none of the helpers returns a falsy sentinel: `wait_and_retry` and
      `retry_on_exception` re-raise after three invocations and two sleeps,
      `retry_until_success` after one invocation. */
  lemma AlwaysRaising<T>(f: Fault)
    requires IsException(f)
    ensures var script: seq<Outcome<T>> := [Raised(f), Raised(f), Raised(f)];
      && WaitAndRetry(script, (v: T) => true, 3, 1.0) == Run(Throw(f), 3, 2)
      && RetryOnException(script, DefaultHandlers, 3, 1.0) == Run(Throw(f), 3, 2)
      && RetryUntilSuccess(script, (v: T) => true, 3, 2.0) == Run(Throw(f), 1, 0)
  {
    var script: seq<Outcome<T>> := [Raised(f), Raised(f), Raised(f)];
    WaitAndRetryReraisesOnLastAttempt(script, (v: T) => true, 3, 1.0);
    assert script[..2] == [Raised(f), Raised(f)];
    DefaultHandlersCatchExceptions(f);
    RetryOnExceptionReraisesOnLastAttempt(script, DefaultHandlers, 3, 1.0);
    RetryUntilSuccessPropagatesFault(script, (v: T) => true, 3, 2.0, 0);
  }
}
