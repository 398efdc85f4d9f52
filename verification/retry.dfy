/**
 Retry arithmetic and the retry loop: the Rust client's saturating durations beside the uncapped
 schedule of the Python and TypeScript clients.

 Clocks and random draws are parameters, and the operation is the list of outcomes it would have
 if it were called again and again.
 */
module Retry {
  import opened Bytes
  import opened Wrappers

  const NANOS_PER_MILLI: nat := 1_000_000
  /** Rust's Duration holds 64 bits of seconds and a fraction in nanoseconds. */
  const DURATION_LIMIT: nat := 0x1_0000_0000_0000_0000 * 1_000_000_000

  type Duration = n: nat | n < DURATION_LIMIT

  type U64 = n: nat | n < 0x1_0000_0000_0000_0000

  datatype Category = ResourceExhausted | Unavailable | OtherCategory

  datatype Error =
    | Io
    | Closed
    | Timeout
    | Server(category: Category, retryAfterMs: Option<u32>)
    | Permanent

  datatype Outcome<T> = Ok(value: T) | Err(error: Error)

  predicate IsRetryable(e: Error) {
    e.Io? || e.Closed? || e.Timeout?
    || (e.Server? && (e.category.ResourceExhausted? || e.category.Unavailable?))
  }

  function RetryAfter(e: Error): Option<Duration> {
    if e.Server? && e.retryAfterMs.Some? then Some(e.retryAfterMs.value * NANOS_PER_MILLI) else None
  }

  datatype Policy = Policy(maxAttempts: u32, baseDelay: Duration, maxDelay: Duration)

  function Min(a: nat, b: nat): nat { if a <= b then a else b }

  function MinReal(a: real, b: real): real { if a <= b then a else b }

  /** Multiplication that reports what Duration cannot hold. */
  function CheckedMul(d: Duration, k: u32): Option<Duration> {
    if d * k < DURATION_LIMIT then Some(d * k) else None
  }

  /** The wait after the 1-based `attempt` failed: the server's hint, or a doubling schedule. */
  function Backoff(p: Policy, attempt: u32, hint: Option<Duration>): Option<Duration> {
    if hint.Some? then Some(Min(hint.value, p.maxDelay))
    else if p.baseDelay == 0 then None
    else
      var shift := Min(if attempt == 0 then 0 else attempt - 1, 31);
      ShiftFits(shift);
      var product := CheckedMul(p.baseDelay, Pow2(shift));
      Some(Min(if product.Some? then product.value else p.maxDelay, p.maxDelay))
  }

  lemma ShiftFits(shift: nat)
    requires shift <= 31
    ensures Pow2(shift) < 0x1_0000_0000
  {
    Pow2Values();
    Pow2Grows(shift, 31);
    assert Pow2(32) == 2 * Pow2(31);
  }

  lemma {:induction false} Pow2Grows(a: nat, b: nat)
    requires a <= b
    ensures Pow2(a) <= Pow2(b)
    ensures a < b ==> 2 * Pow2(a) <= Pow2(b)
    decreases b
  {
    if a < b { Pow2Grows(a, b - 1); }
  }

  /** The schedule the policy promises, with no limit on the shift. */
  function Ideal(p: Policy, attempt: nat): (d: Duration)
    ensures d <= p.maxDelay
  {
    Min(p.baseDelay * Pow2(if attempt == 0 then 0 else attempt - 1), p.maxDelay)
  }

  /** The ideal wait starts at the base delay and doubles up to the cap. */
  lemma IdealDoubles(p: Policy, attempt: nat)
    ensures Ideal(p, 1) == Min(p.baseDelay, p.maxDelay)
    ensures attempt >= 1 ==> Ideal(p, attempt + 1) == Min(2 * Ideal(p, attempt), p.maxDelay)
  {
    assert Pow2(0) == 1;
    if attempt >= 1 {
      assert Pow2(attempt) == 2 * Pow2(attempt - 1);
      assert p.baseDelay * (2 * Pow2(attempt - 1)) == 2 * (p.baseDelay * Pow2(attempt - 1));
    }
  }

  /** Saturation is invisible: what Duration cannot hold is above the cap anyway. */
  lemma BackoffValue(p: Policy, attempt: u32)
    requires p.baseDelay > 0
    ensures Backoff(p, attempt, None) ==
            Some(Min(p.baseDelay * Pow2(Min(if attempt == 0 then 0 else attempt - 1, 31)), p.maxDelay))
  {
    hide Pow2;
    var shift := Min(if attempt == 0 then 0 else attempt - 1, 31);
    ShiftFits(shift);
  }

  /** The capped, saturating form is the ideal one exactly up to 32 attempts, or for good once 31
      doublings reach the cap. */
  lemma BackoffIsIdeal(p: Policy, attempt: u32)
    requires p.baseDelay > 0
    ensures Backoff(p, attempt, None) == Some(Ideal(p, attempt)) <==>
            attempt <= 32 || p.baseDelay * Pow2(31) >= p.maxDelay
  {
    hide Pow2, Backoff;
    BackoffValue(p, attempt);
    if attempt > 32 {
      Pow2Grows(31, attempt - 1);
      TwiceAtMost(p.baseDelay, Pow2(31), Pow2(attempt - 1));
      BasePositive(p.baseDelay, Pow2(31));
    }
  }

  lemma BasePositive(a: nat, b: nat)
    requires a > 0 && b > 0
    ensures a * b > 0
  {}

  lemma TwiceAtMost(a: nat, b: nat, c: nat)
    requires 2 * b <= c
    ensures 2 * (a * b) <= a * c
  {
    MulGrows(a, 2 * b, c);
    assert a * (2 * b) == 2 * (a * b);
  }

  lemma MulGrows(a: nat, b: nat, c: nat)
    requires b <= c
    ensures a * b <= a * c
  {}

  /** Without a hint the wait never shrinks from one attempt to the next. */
  lemma BackoffGrows(p: Policy, attempt: u32, later: u32)
    requires p.baseDelay > 0 && attempt <= later
    ensures Backoff(p, attempt, None).value <= Backoff(p, later, None).value <= p.maxDelay
  {
    var a := Min(if attempt == 0 then 0 else attempt - 1, 31);
    var b := Min(if later == 0 then 0 else later - 1, 31);
    BackoffValue(p, attempt);
    BackoffValue(p, later);
    Pow2Grows(a, b);
    MulGrows(p.baseDelay, Pow2(a), Pow2(b));
    hide Pow2, Backoff;
  }

  // Jitter.

  /** The point in `[floor, delay]` a draw picks. */
  function JitteredBy(delay: Duration, floor: Duration, draw: U64): Duration {
    var low := Min(floor, delay);
    var span := Min(delay - low, 0xFFFF_FFFF_FFFF_FFFF);
    if span == 0 then low else low + draw % span
  }

  /** Never below the floor (itself capped by the delay), and below the delay unless they meet. */
  lemma JitterInRange(delay: Duration, floor: Duration, draw: U64)
    ensures Min(floor, delay) <= JitteredBy(delay, floor, draw) <= delay
    ensures JitteredBy(delay, floor, draw) == delay <==> delay <= floor
  {
    var low := Min(floor, delay);
    var span := Min(delay - low, 0xFFFF_FFFF_FFFF_FFFF);
    if span > 0 { assert 0 <= draw % span < span; }
  }

  /** The smallest draw that picks a wait. */
  lemma JitterReaches(delay: Duration, floor: Duration, wait: Duration) returns (draw: U64)
    requires floor <= wait < delay && wait - floor < 0xFFFF_FFFF_FFFF_FFFF
    ensures JitteredBy(delay, floor, draw) == wait
  {
    draw := wait - floor;
    var span := Min(delay - floor, 0xFFFF_FFFF_FFFF_FFFF);
    assert Min(floor, delay) == floor;
    SmallRemainder(draw, span);
  }

  lemma SmallRemainder(n: nat, d: nat)
    requires n < d
    ensures n % d == n
  {}

  // One decision.

  datatype RetryStep = Retry(wait: Option<Duration>) | GiveUp

  function Step(p: Policy, attempt: u32, e: Error, draw: U64): RetryStep {
    if attempt < p.maxAttempts && IsRetryable(e) then
      var hint := RetryAfter(e);
      var delay := Backoff(p, attempt, hint);
      Retry(if delay.None? then None
            else Some(JitteredBy(delay.value, Min(if hint.Some? then hint.value else 0, p.maxDelay), draw)))
    else GiveUp
  }

  function Slept(wait: Option<Duration>): nat { if wait.Some? then wait.value else 0 }

  /** A server hint is waited out exactly, up to the cap; without one the wait is anywhere below
      the ideal schedule. */
  lemma StepWait(p: Policy, attempt: u32, e: Error, draw: U64)
    requires Step(p, attempt, e, draw).Retry?
    ensures var wait := Slept(Step(p, attempt, e, draw).wait);
            && wait <= p.maxDelay
            && (RetryAfter(e).Some? ==> wait == Min(RetryAfter(e).value, p.maxDelay))
            && (RetryAfter(e).None? ==> wait <= Ideal(p, attempt))
            && (RetryAfter(e).None? && Ideal(p, attempt) > 0 ==> wait < Ideal(p, attempt))
  {
    var hint := RetryAfter(e);
    var delay := Backoff(p, attempt, hint);
    if delay.Some? {
      JitterInRange(delay.value, Min(if hint.Some? then hint.value else 0, p.maxDelay), draw);
      if hint.None? {
        BackoffBelowIdeal(p, attempt);
      }
    }
  }

  /** Which errors are worth another try. */
  lemma RetryableIff(e: Error)
    ensures IsRetryable(e) <==>
            e in {Io, Closed, Timeout} || (e.Server? && e.category in {ResourceExhausted, Unavailable})
  {}

  /** With attempts left and without a hint, a draw below the ideal wait is itself the wait, so every wait
      below it (as far as 64 bits of nanoseconds reach) happens for some draw. */
  lemma StepReaches(p: Policy, attempt: u32, e: Error, wait: U64)
    requires attempt < p.maxAttempts && IsRetryable(e) && RetryAfter(e).None? && p.baseDelay > 0
    requires attempt <= 32 || p.baseDelay * Pow2(31) >= p.maxDelay
    requires wait < Ideal(p, attempt) && wait < 0xFFFF_FFFF_FFFF_FFFF
    ensures Step(p, attempt, e, wait) == Retry(Some(wait))
  {
    hide Pow2, Backoff, Ideal;
    BackoffIsIdeal(p, attempt);
    var delay := Ideal(p, attempt);
    SmallRemainder(wait, Min(delay, 0xFFFF_FFFF_FFFF_FFFF));
  }

  /** Every draw gives a wait of that kind: its remainder by the ideal wait. */
  lemma StepDraws(p: Policy, attempt: u32, e: Error, draw: U64)
    requires attempt < p.maxAttempts && IsRetryable(e) && RetryAfter(e).None? && p.baseDelay > 0
    requires attempt <= 32 || p.baseDelay * Pow2(31) >= p.maxDelay
    ensures Step(p, attempt, e, draw) ==
            Retry(Some(if Ideal(p, attempt) == 0 then 0 else draw % Min(Ideal(p, attempt), 0xFFFF_FFFF_FFFF_FFFF)))
  {
    hide Pow2, Backoff, Ideal;
    BackoffIsIdeal(p, attempt);
  }

  /** With attempts left and a hint of `ms` milliseconds, the wait is the hint up to the cap; without a base
      delay or a hint the next try goes straight out. */
  lemma StepHints(p: Policy, attempt: u32, category: Category, ms: u32, draw: U64)
    requires attempt < p.maxAttempts && (category.ResourceExhausted? || category.Unavailable?)
    ensures Step(p, attempt, Server(category, Some(ms)), draw) == Retry(Some(Min(ms * 1_000_000, p.maxDelay)))
    ensures p.baseDelay == 0 ==> Step(p, attempt, Server(category, None), draw) == Retry(None)
  {
    var cap := Min(ms * 1_000_000, p.maxDelay);
    JitterInRange(cap, cap, draw);
  }

  /** The server is never asked again sooner than it wanted, exactly when its hint is within the cap. */
  lemma HintHonored(p: Policy, attempt: u32, e: Error, draw: U64)
    requires Step(p, attempt, e, draw).Retry? && RetryAfter(e).Some?
    ensures Slept(Step(p, attempt, e, draw).wait) >= RetryAfter(e).value <==> RetryAfter(e).value <= p.maxDelay
  {
    StepWait(p, attempt, e, draw);
    hide Step;
  }

  lemma BackoffBelowIdeal(p: Policy, attempt: u32)
    requires p.baseDelay > 0
    ensures Backoff(p, attempt, None).value <= Ideal(p, attempt)
    ensures Backoff(p, attempt, None).value == 0 <==> Ideal(p, attempt) == 0
  {
    var n := if attempt == 0 then 0 else attempt - 1;
    BackoffValue(p, attempt);
    Pow2Grows(Min(n, 31), n);
    MulGrows(p.baseDelay, Pow2(Min(n, 31)), Pow2(n));
    BasePositive(p.baseDelay, Pow2(Min(n, 31)));
    BasePositive(p.baseDelay, Pow2(n));
    hide Pow2, Backoff;
  }

  // The loop.

  /** Whether the retry loop is over when call number `calls` has its outcome. */
  predicate Stops<T(!new)>(op: nat -> Outcome<T>, calls: nat, maxAttempts: int)
    requires calls > 0
  {
    op(calls - 1).Ok? || !IsRetryable(op(calls - 1).error) || calls >= maxAttempts
  }

  /** The first call at which the loop is over. */
  ghost predicate IsLastCall<T(!new)>(op: nat -> Outcome<T>, calls: nat, maxAttempts: int) {
    calls > 0 && Stops(op, calls, maxAttempts) && forall k :: 0 < k < calls ==> !Stops(op, k, maxAttempts)
  }

  function TotalSlept(waits: seq<Option<Duration>>): nat {
    if waits == [] then 0 else TotalSlept(waits[..|waits| - 1]) + Slept(waits[|waits| - 1])
  }

  /** The operation runs until its first success, final error, or the attempt limit; the sleeps in
      between are the policy's, and are bounded in total. */
  method WithRetry<T(!new)>(p: Policy, op: nat -> Outcome<T>, draws: nat -> U64)
    returns (result: Outcome<T>, calls: nat, waits: seq<Option<Duration>>)
    ensures IsLastCall(op, calls, p.maxAttempts) && result == op(calls - 1)
    ensures 1 <= calls && (calls <= p.maxAttempts || calls == 1)
    ensures |waits| == calls - 1
    ensures forall i :: 0 <= i < |waits| ==>
                op(i).Err? && Step(p, i + 1, op(i).error, draws(i)) == Retry(waits[i])
    ensures TotalSlept(waits) <= (calls - 1) * p.maxDelay
  {
    hide Step, Slept, TotalSlept;
    assert TotalSlept([]) == 0 by { NothingSlept(); }
    var attempt: u32 := 1;
    waits := [];
    while true
      invariant 1 <= attempt && (attempt <= p.maxAttempts || attempt == 1)
      invariant forall k :: 0 < k < attempt ==> !Stops(op, k, p.maxAttempts)
      invariant |waits| == attempt - 1
      invariant forall i :: 0 <= i < |waits| ==>
                  op(i).Err? && Step(p, i + 1, op(i).error, draws(i)) == Retry(waits[i])
      invariant TotalSlept(waits) <= |waits| * p.maxDelay
      decreases p.maxAttempts - attempt
    {
      result := op(attempt - 1);
      if result.Ok? {
        calls := attempt;
        return;
      }
      var step := Step(p, attempt, result.error, draws(attempt - 1));
      GivesUp(p, attempt, result.error, draws(attempt - 1));
      if step.GiveUp? {
        calls := attempt;
        return;
      }
      StepWait(p, attempt, result.error, draws(attempt - 1));
      OneMoreSleep(waits, step.wait, p.maxDelay);
      waits := waits + [step.wait];
      attempt := attempt + 1;
    }
  }

  lemma NothingSlept()
    ensures TotalSlept([]) == 0 && TotalSeconds([]) == 0.0
  {}

  lemma GivesUp(p: Policy, attempt: u32, e: Error, draw: U64)
    ensures Step(p, attempt, e, draw).GiveUp? <==> !IsRetryable(e) || attempt >= p.maxAttempts
  {}

  lemma OneMoreSleep(waits: seq<Option<Duration>>, wait: Option<Duration>, cap: nat)
    requires TotalSlept(waits) <= |waits| * cap && Slept(wait) <= cap
    ensures TotalSlept(waits + [wait]) <= |waits + [wait]| * cap
  {
    var all := waits + [wait];
    assert all[..|all| - 1] == waits;
    assert (|waits| + 1) * cap == |waits| * cap + cap;
  }

  // The uncapped form of the Python and TypeScript clients, on exact reals.

  datatype RealPolicy = RealPolicy(maxAttempts: int, baseDelay: real, maxDelay: real)

  function Times(a: real, b: real): real { a * b }

  function BackoffSeconds(p: RealPolicy, attempt: int, hint: Option<real>): Option<real> {
    if hint.Some? then Some(MinReal(hint.value, p.maxDelay))
    else if p.baseDelay <= 0.0 then None
    else Some(MinReal(Times(p.baseDelay, Pow2(if attempt < 1 then 0 else attempt - 1) as real), p.maxDelay))
  }

  function RetryAfterSeconds(e: Error): Option<real> {
    if e.Server? && e.retryAfterMs.Some? then Some(e.retryAfterMs.value as real / 1000.0) else None
  }

  function JitteredReal(delay: real, floor: real, draw: real): real {
    var low := MinReal(floor, delay);
    if delay <= low then low else low + Times(draw, delay - low)
  }

  function SleepBeforeRetry(p: RealPolicy, attempt: int, e: Error, draw: real): Option<real> {
    var hint := RetryAfterSeconds(e);
    var delay := BackoffSeconds(p, attempt, hint);
    if delay.None? || delay.value == 0.0 then None
    else Some(JitteredReal(delay.value, if hint.Some? then MinReal(hint.value, p.maxDelay) else 0.0, draw))
  }

  lemma JitterRealInRange(delay: real, floor: real, draw: real)
    requires 0.0 <= draw < 1.0
    ensures MinReal(floor, delay) <= JitteredReal(delay, floor, draw) <= delay
    ensures JitteredReal(delay, floor, draw) == delay <==> delay <= floor
  {
    hide Times;
    var low := MinReal(floor, delay);
    if delay > low { Fraction(draw, delay - low); }
  }

  lemma Fraction(draw: real, span: real)
    requires 0.0 <= draw < 1.0 && span > 0.0
    ensures 0.0 <= Times(draw, span) < span
  {}

  /** The same two facts as for the Rust client's step. */
  lemma SleepWait(p: RealPolicy, attempt: int, e: Error, draw: real)
    requires 0.0 <= draw < 1.0 && p.maxDelay >= 0.0
    ensures var sleep := SleepBeforeRetry(p, attempt, e, draw);
            var wait := if sleep.Some? then sleep.value else 0.0;
            && 0.0 <= wait <= p.maxDelay
            && (RetryAfterSeconds(e).Some? ==> wait == MinReal(RetryAfterSeconds(e).value, p.maxDelay))
            && (sleep.Some? && RetryAfterSeconds(e).None? ==> wait < BackoffSeconds(p, attempt, None).value)
  {
    hide Pow2, Times;
    var hint := RetryAfterSeconds(e);
    var delay := BackoffSeconds(p, attempt, hint);
    if hint.None? && p.baseDelay > 0.0 {
      PositiveProduct(p.baseDelay, Pow2(if attempt < 1 then 0 else attempt - 1) as real);
    }
    if delay.Some? {
      JitterRealInRange(delay.value, if hint.Some? then MinReal(hint.value, p.maxDelay) else 0.0, draw);
    }
  }

  /** Every point from the floor up to the delay is picked by some draw. */
  lemma JitterRealReaches(delay: real, floor: real, wait: real) returns (draw: real)
    requires floor <= wait < delay
    ensures 0.0 <= draw < 1.0 && JitteredReal(delay, floor, draw) == wait
  {
    draw := (wait - floor) / (delay - floor);
    assert draw * (delay - floor) == wait - floor;
    FractionBelow(wait - floor, delay - floor, draw);
  }

  lemma FractionBelow(part: real, whole: real, draw: real)
    requires 0.0 <= part < whole && draw * whole == part
    ensures 0.0 <= draw < 1.0
  {}

  /** So without a hint every sleep below the schedule's delay is slept for some draw, and with a hint of
      `ms` milliseconds the hint up to the cap. */
  lemma SleepReaches(p: RealPolicy, attempt: int, e: Error, wait: real) returns (draw: real)
    requires RetryAfterSeconds(e).None? && p.baseDelay > 0.0
    requires 0.0 <= wait < BackoffSeconds(p, attempt, None).value
    ensures 0.0 <= draw < 1.0 && SleepBeforeRetry(p, attempt, e, draw) == Some(wait)
  {
    hide Pow2, Times;
    draw := JitterRealReaches(BackoffSeconds(p, attempt, None).value, 0.0, wait);
  }

  lemma SleepHints(p: RealPolicy, attempt: int, category: Category, ms: u32, draw: real)
    requires ms > 0 && p.maxDelay > 0.0
    ensures SleepBeforeRetry(p, attempt, Server(category, Some(ms)), draw) ==
            Some(MinReal(ms as real / 1000.0, p.maxDelay))
  {}

  lemma PositiveProduct(a: real, b: real)
    requires a > 0.0 && b > 0.0
    ensures Times(a, b) > 0.0
  {}

  function Seconds(d: nat): real { d as real / 1_000_000_000.0 }

  function InSeconds(d: Option<Duration>): Option<real> { if d.Some? then Some(Seconds(d.value)) else None }

  function SecondsPolicy(p: Policy): RealPolicy {
    RealPolicy(p.maxAttempts, Seconds(p.baseDelay), Seconds(p.maxDelay))
  }

  lemma SecondsOrder(a: nat, b: nat)
    ensures Seconds(a) <= Seconds(b) <==> a <= b
  {}

  lemma SecondsZero()
    ensures Seconds(0) == 0.0
  {}

  lemma SecondsScale(a: nat, k: nat)
    ensures Times(Seconds(a), k as real) == Seconds(a * k)
  {
    assert (a * k) as real == (a as real) * (k as real);
  }

  lemma HintsAgree(e: Error)
    ensures RetryAfterSeconds(e) == InSeconds(RetryAfter(e))
  {
    if RetryAfter(e).Some? {
      var ms: nat := e.retryAfterMs.value;
      assert Seconds(ms * NANOS_PER_MILLI) == ms as real / 1000.0;
    }
  }

  /** The three clients compute one schedule, exactly where the Rust client's shift is not cut off
      before the cap is reached. */
  lemma SchedulesAgree(p: Policy, attempt: u32, e: Error)
    ensures BackoffSeconds(SecondsPolicy(p), attempt, RetryAfterSeconds(e)) ==
            InSeconds(Backoff(p, attempt, RetryAfter(e))) <==>
            RetryAfter(e).Some? || p.baseDelay == 0 || attempt <= 32 || p.baseDelay * Pow2(31) >= p.maxDelay
  {
    HintsAgree(e);
    var hint := RetryAfter(e);
    if hint.Some? {
      hide Pow2;
      SecondsOrder(hint.value, p.maxDelay);
    } else if p.baseDelay > 0 {
      UncappedIsIdeal(p, attempt);
      BackoffIsIdeal(p, attempt);
      BackoffValue(p, attempt);
      hide Pow2, Backoff, BackoffSeconds, Ideal;
      var d := Backoff(p, attempt, None).value;
      SecondsOrder(d, Ideal(p, attempt));
      SecondsOrder(Ideal(p, attempt), d);
    }
  }

  lemma UncappedIsIdeal(p: Policy, attempt: u32)
    requires p.baseDelay > 0
    ensures BackoffSeconds(SecondsPolicy(p), attempt, None) == Some(Seconds(Ideal(p, attempt)))
  {
    hide Pow2;
    var n := if attempt < 1 then 0 else attempt - 1;
    SecondsScale(p.baseDelay, Pow2(n));
    SecondsOrder(p.baseDelay * Pow2(n), p.maxDelay);
    SecondsOrder(p.baseDelay, 0);
    SecondsZero();
    hide Seconds, Times;
  }

  /** The Python loop; with the same outcomes it makes the same calls as the Rust one, since both
      stop at the last call and there is only one. */
  method WithRetrySeconds<T(!new)>(p: RealPolicy, op: nat -> Outcome<T>, draws: nat -> real)
    returns (result: Outcome<T>, calls: nat, waits: seq<Option<real>>)
    requires p.maxDelay >= 0.0 && forall i: nat :: 0.0 <= draws(i) < 1.0
    ensures IsLastCall(op, calls, p.maxAttempts) && result == op(calls - 1)
    ensures 1 <= calls && (calls <= p.maxAttempts || calls == 1)
    ensures |waits| == calls - 1
    ensures forall i :: 0 <= i < |waits| ==>
                op(i).Err? && waits[i] == SleepBeforeRetry(p, i + 1, op(i).error, draws(i))
    ensures TotalSeconds(waits) <= (calls - 1) as real * p.maxDelay
  {
    hide SleepBeforeRetry, TotalSeconds;
    assert TotalSeconds([]) == 0.0 by { NothingSlept(); }
    var attempt := 1;
    waits := [];
    while true
      invariant 1 <= attempt && (attempt <= p.maxAttempts || attempt == 1)
      invariant forall k :: 0 < k < attempt ==> !Stops(op, k, p.maxAttempts)
      invariant |waits| == attempt - 1
      invariant forall i :: 0 <= i < |waits| ==>
                  op(i).Err? && waits[i] == SleepBeforeRetry(p, i + 1, op(i).error, draws(i))
      invariant TotalSeconds(waits) <= |waits| as real * p.maxDelay
      decreases p.maxAttempts - attempt
    {
      result := op(attempt - 1);
      if result.Ok? {
        calls := attempt;
        return;
      }
      if attempt < p.maxAttempts && IsRetryable(result.error) {
        var sleep := SleepBeforeRetry(p, attempt, result.error, draws(attempt - 1));
        SleepWait(p, attempt, result.error, draws(attempt - 1));
        OneMoreSecondsSleep(waits, sleep, p.maxDelay);
        waits := waits + [sleep];
        attempt := attempt + 1;
        continue;
      }
      calls := attempt;
      return;
    }
  }

  function TotalSeconds(waits: seq<Option<real>>): real {
    if waits == [] then 0.0
    else
      var last := waits[|waits| - 1];
      TotalSeconds(waits[..|waits| - 1]) + if last.Some? then last.value else 0.0
  }

  lemma OneMoreSecondsSleep(waits: seq<Option<real>>, wait: Option<real>, cap: real)
    requires TotalSeconds(waits) <= |waits| as real * cap && 0.0 <= cap
    requires wait.Some? ==> wait.value <= cap
    ensures TotalSeconds(waits + [wait]) <= |waits + [wait]| as real * cap
  {
    var all := waits + [wait];
    assert all[..|all| - 1] == waits;
    assert (|waits| + 1) as real * cap == |waits| as real * cap + cap;
  }

  /** Against an operation that always fails in a way worth retrying, every attempt is used. */
  lemma KeepsTrying<T(!new)>(op: nat -> Outcome<T>, calls: nat, maxAttempts: int)
    requires IsLastCall(op, calls, maxAttempts) && forall i: nat :: op(i).Err? && IsRetryable(op(i).error)
    ensures calls == if maxAttempts < 1 then 1 else maxAttempts
  {
    if calls > 1 { assert !Stops(op, calls - 1, maxAttempts); }
  }

  lemma LastCallIsUnique<T(!new)>(op: nat -> Outcome<T>, a: nat, b: nat, maxAttempts: int)
    requires IsLastCall(op, a, maxAttempts) && IsLastCall(op, b, maxAttempts)
    ensures a == b
  {}
}
