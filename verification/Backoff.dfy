/** Retries (internal/llm/client.go): the exponential delay on 64-bit durations, and the retry loop. */
module Backoff {
  import opened Results

  const MAX_INT64: int := 0x7FFF_FFFF_FFFF_FFFF

  /** The value that 64-bit arithmetic leaves of an integer. */
  function Wrap(x: int): int {
    var r := x % 0x1_0000_0000_0000_0000;
    if r > MAX_INT64 then r - 0x1_0000_0000_0000_0000 else r
  }

  function MinDuration(a: int, b: int): int {
    if a < b then a else b
  }

  /** The retry settings of a client; the client sets 250ms, 5s and 3. */
  datatype Policy = Policy(initial: int, max: int, attempts: int) {
    predicate IsPositive() {
      0 < initial <= MAX_INT64 && 0 < max <= MAX_INT64
    }
  }

  const DEFAULT := Policy(250_000_000, 5_000_000_000, 3)

  /** The doubling loop, from `base` with `left` rounds to go. */
  function Doubled(base: int, max: int, left: nat): int
    decreases left
  {
    if left == 0 then base
    else if Wrap(base * 2) >= max then max
    else Doubled(Wrap(base * 2), max, left - 1)
  }

  /** The delay before jitter is added. */
  function BaseDelay(p: Policy, attempt: int): int {
    MinDuration(Doubled(p.initial, p.max, if attempt < 1 then 0 else attempt - 1), p.max)
  }

  /** Every value that `base` takes, with the doubled value before it is capped. */
  function ValuesFrom(base: int, max: int, left: nat): seq<int>
    decreases left
  {
    if left == 0 then [base] + (if base > max then [max] else [])
    else if Wrap(base * 2) >= max then [base, Wrap(base * 2), max]
    else [base] + ValuesFrom(Wrap(base * 2), max, left - 1)
  }

  function Values(p: Policy, attempt: int): seq<int> {
    ValuesFrom(p.initial, p.max, if attempt < 1 then 0 else attempt - 1)
  }

  /** One round of the loop. */
  lemma Round(base: int, max: int, left: nat)
    ensures var next := Wrap(base * 2);
            if left == 0 then
              && Doubled(base, max, left) == base
              && ValuesFrom(base, max, left) == [base] + (if base > max then [max] else [])
            else if next >= max then
              Doubled(base, max, left) == max && ValuesFrom(base, max, left) == [base, next, max]
            else
              && Doubled(base, max, left) == Doubled(next, max, left - 1)
              && ValuesFrom(base, max, left) == [base] + ValuesFrom(next, max, left - 1)
  {
  }

  /** The delay of an attempt; `values` are all assignments to `base` on the way. */
  method NextBackoffDelay(p: Policy, attempt: int, jitterFn: int -> int) returns (delay: int, ghost values: seq<int>)
    ensures var base := BaseDelay(p, attempt);
            delay == MinDuration(p.max, Wrap(base + jitterFn(base)))
    ensures values == Values(p, attempt)
  {
    hide Wrap, Doubled, ValuesFrom;
    var n := if attempt < 1 then 1 else attempt;
    var base := p.initial;
    values := [base];
    ghost var before: seq<int> := [];
    var i := 1;
    while i < n
      invariant 1 <= i <= n
      invariant Doubled(base, p.max, n - i) == Doubled(p.initial, p.max, n - 1)
      invariant values == before + [base]
      invariant before + ValuesFrom(base, p.max, n - i) == Values(p, attempt)
    {
      Round(base, p.max, n - i);
      before := values;
      base := Wrap(base * 2);
      values := values + [base];
      if base >= p.max {
        base := p.max;
        values := values + [base];
        break;
      }
      i := i + 1;
    }
    Round(base, p.max, 0);
    if base > p.max {
      base := p.max;
      values := values + [base];
    }
    var jitter := jitterFn(base);
    delay := MinDuration(p.max, Wrap(base + jitter));
  }

  function Power2(n: nat): nat {
    if n == 0 then 1 else 2 * Power2(n - 1)
  }

  /** No doubling that the loop can come to leaves the 64-bit range. */
  ghost predicate NeverWraps(p: Policy) {
    forall k: nat :: (k == 0 || p.initial * Power2(k) < p.max) ==> p.initial * Power2(k) * 2 <= MAX_INT64
  }

  /** A small enough maximum, and a first delay not above it, are enough. */
  lemma SmallNeverWraps(p: Policy)
    requires p.IsPositive() && p.initial <= p.max && p.max * 2 <= MAX_INT64 + 1
    requires p.initial * 2 <= MAX_INT64
    ensures NeverWraps(p)
  {
    forall k: nat | k == 0 || p.initial * Power2(k) < p.max ensures p.initial * Power2(k) * 2 <= MAX_INT64 {
      assert Power2(0) == 1;
    }
  }

  lemma DefaultNeverWraps()
    ensures DEFAULT.IsPositive() && NeverWraps(DEFAULT) && DEFAULT.max + DEFAULT.max / 5 <= MAX_INT64
  {
    SmallNeverWraps(DEFAULT);
  }

  lemma {:induction false} PowersGrow(k: nat, n: nat)
    requires k <= n
    ensures Power2(k) <= Power2(n)
    decreases n - k
  {
    if k < n {
      PowersGrow(k, n - 1);
    }
  }

  lemma ScaledPowers(a: int, k: nat, n: nat)
    requires a > 0 && k <= n
    ensures 0 < a * Power2(k) <= a * Power2(n)
    ensures a * Power2(k + 1) == a * Power2(k) * 2
  {
    PowersGrow(0, k);
    PowersGrow(k, n);
    Scale(a, Power2(k), Power2(n));
  }

  lemma Scale(a: int, x: int, y: int)
    requires a > 0 && 0 < x <= y
    ensures 0 < a * x <= a * y
  {
  }

  lemma FirstPower(p: Policy)
    ensures p.initial * Power2(0) == p.initial
  {
  }

  lemma DoublingStep(base: int, max: int, left: nat)
    requires 0 < base && base * 2 <= MAX_INT64
    ensures left == 0 ==> Doubled(base, max, left) == base
    ensures left > 0 && base * 2 >= max ==> Doubled(base, max, left) == max
    ensures left > 0 && base * 2 < max ==> Doubled(base, max, left) == Doubled(base * 2, max, left - 1)
  {
  }

  lemma {:induction false} DoubledFrom(p: Policy, k: nat, left: nat)
    requires p.IsPositive() && NeverWraps(p)
    requires k == 0 || p.initial * Power2(k) < p.max
    requires p.initial * Power2(k) > 0
    ensures MinDuration(Doubled(p.initial * Power2(k), p.max, left), p.max)
         == MinDuration(p.initial * Power2(k + left), p.max)
    decreases left
  {
    hide Power2, Doubled;
    DoublingStep(p.initial * Power2(k), p.max, left);
    if left > 0 {
      ScaledPowers(p.initial, k, k + left);
      ScaledPowers(p.initial, k + 1, k + left);
      if p.initial * Power2(k + 1) < p.max {
        DoubledFrom(p, k + 1, left - 1);
      }
    }
  }

  /** The closed form: doubled with every attempt, up to the maximum. */
  function ClosedForm(p: Policy, attempt: int): int {
    MinDuration(p.max, p.initial * Power2(if attempt < 1 then 0 else attempt - 1))
  }

  lemma BaseIsClosedForm(p: Policy, attempt: int)
    requires p.IsPositive() && NeverWraps(p)
    ensures BaseDelay(p, attempt) == ClosedForm(p, attempt)
  {
    FirstPower(p);
    ScaledPowers(p.initial, 0, 0);
    DoubledFrom(p, 0, if attempt < 1 then 0 else attempt - 1);
  }

  /** As long as the delay is below the maximum, the loop doubles it exactly. */
  lemma {:induction false} DoubledExactly(p: Policy, k: nat, rest: nat)
    requires p.IsPositive()
    requires k == 0 || p.initial * Power2(k) < p.max
    ensures Doubled(p.initial, p.max, k + rest) == Doubled(p.initial * Power2(k), p.max, rest)
    decreases k
  {
    hide Power2;
    if k == 0 {
      FirstPower(p);
    } else {
      hide Doubled;
      ScaledPowers(p.initial, k - 1, k);
      DoubledExactly(p, k - 1, rest + 1);
      OneDoubling(p.initial * Power2(k - 1), p.max, rest);
    }
  }

  lemma OneDoubling(base: int, max: int, rest: nat)
    requires 0 < base && base * 2 < max <= MAX_INT64
    ensures Doubled(base, max, rest + 1) == Doubled(base * 2, max, rest)
  {
  }

  /** A doubling out of range shows as a negative delay. */
  lemma WrapShows(p: Policy, k: nat)
    requires p.IsPositive()
    requires k == 0 || p.initial * Power2(k) < p.max
    requires p.initial * Power2(k) * 2 > MAX_INT64
    ensures BaseDelay(p, k + 2) < 0
  {
    ScaledPowers(p.initial, k, k);
    DoubledExactly(p, k, 1);
    var base := p.initial * Power2(k);
    assert k == 0 ==> base == p.initial;
    assert Wrap(base * 2) == base * 2 - 0x1_0000_0000_0000_0000;
    assert Doubled(base, p.max, 1) == Doubled(Wrap(base * 2), p.max, 0);
  }

  /** The delays have the closed form for every attempt exactly if no doubling leaves the range. */
  lemma ClosedFormIff(p: Policy)
    requires p.IsPositive()
    ensures NeverWraps(p) <==> forall attempt :: BaseDelay(p, attempt) == ClosedForm(p, attempt)
  {
    hide BaseDelay;
    if NeverWraps(p) {
      forall attempt ensures BaseDelay(p, attempt) == ClosedForm(p, attempt) {
        BaseIsClosedForm(p, attempt);
      }
    } else {
      var k: nat :| (k == 0 || p.initial * Power2(k) < p.max) && p.initial * Power2(k) * 2 > MAX_INT64;
      WrapShows(p, k);
      ScaledPowers(p.initial, k + 1, k + 1);
      assert BaseDelay(p, k + 2) != ClosedForm(p, k + 2);
    }
  }

  /** The first delay, or twice the maximum, whichever is larger. */
  function Bound(p: Policy): int {
    if p.initial > 2 * p.max then p.initial else 2 * p.max
  }

  ghost predicate AllWithin(values: seq<int>, bound: int) {
    forall v :: v in values ==> v <= bound
  }

  lemma {:induction false} ValuesWithin(base: int, max: int, left: nat, bound: int)
    requires 0 < max <= MAX_INT64 && -MAX_INT64 - 1 <= base <= max && bound >= 2 * max
    requires base < 0 ==> 2 * max > MAX_INT64
    ensures AllWithin(ValuesFrom(base, max, left), bound)
    decreases left
  {
    if left > 0 && Wrap(base * 2) < max {
      ValuesWithin(Wrap(base * 2), max, left - 1, bound);
    }
  }

  /** A first delay not above the maximum keeps every value within the bound, in range or not. */
  lemma BoundHolds(p: Policy, attempt: int)
    requires p.IsPositive() && p.initial <= p.max
    ensures AllWithin(Values(p, attempt), Bound(p))
  {
    ValuesWithin(p.initial, p.max, if attempt < 1 then 0 else attempt - 1, Bound(p));
  }

  /** A first delay above the maximum is doubled once before it is capped. */
  lemma BoundFails(p: Policy)
    requires p.IsPositive() && p.initial > p.max && p.initial * 2 <= MAX_INT64
    ensures p.initial * 2 in Values(p, 2) && p.initial * 2 > Bound(p)
  {
    assert Values(p, 2) == [p.initial, p.initial * 2, p.max];
    assert Values(p, 2)[1] == p.initial * 2;
  }

  /**
   No value on the way exceeds the larger of the first delay and twice the maximum, whatever the
   attempt, exactly if the first delay is not above the maximum.
   */
  lemma BoundIff(p: Policy)
    requires p.IsPositive() && p.initial * 2 <= MAX_INT64
    ensures (forall attempt :: AllWithin(Values(p, attempt), Bound(p))) <==> p.initial <= p.max
  {
    if p.initial <= p.max {
      forall attempt ensures AllWithin(Values(p, attempt), Bound(p)) {
        BoundHolds(p, attempt);
      }
    } else {
      BoundFails(p);
      assert !AllWithin(Values(p, 2), Bound(p));
    }
  }

  /** A failing policy: 10, 20, 4 where 10 is the bound. */
  lemma BoundExceeded()
    ensures var p := Policy(10, 4, 2);
            Values(p, 2) == [10, 20, 4] && Bound(p) == 10 && BaseDelay(p, 2) == 4
  {
  }

  lemma {:induction false} ZeroStays(max: int, left: nat)
    requires max > 0
    ensures forall v :: v in ValuesFrom(0, max, left) ==> v == 0
    decreases left
  {
    if left > 0 {
      ZeroStays(max, left - 1);
    }
  }

  /** Beyond the range of doubling it may go either way: here the first doubling wraps, and the next gives zero. */
  lemma WrappedDelayStays(attempt: int)
    ensures var p := Policy(0x4000_0000_0000_0000, 1, 3);
            p.IsPositive() && p.initial > p.max && AllWithin(Values(p, attempt), Bound(p))
  {
    var p := Policy(0x4000_0000_0000_0000, 1, 3);
    var lowest := -MAX_INT64 - 1;
    assert Wrap(p.initial * 2) == lowest && Wrap(lowest * 2) == 0;
    if attempt > 2 {
      ZeroStays(p.max, attempt - 3);
      assert Values(p, attempt) == [p.initial] + ValuesFrom(lowest, p.max, attempt - 2);
      assert ValuesFrom(lowest, p.max, attempt - 2) == [lowest] + ValuesFrom(0, p.max, attempt - 3);
    }
  }

  /** A random share of a fifth of the delay; `drawn` is what the random source gives, if it does. */
  function BoundedJitter(base: int, drawn: int): (jitter: int)
    ensures 0 <= jitter && (base > 0 ==> 5 * jitter <= base) && (base <= 0 ==> jitter == 0)
  {
    if base <= 0 || base / 5 <= 0 then 0
    else if 0 <= drawn <= base / 5 then drawn
    else 0
  }

  /** With one draw of the jitter the delay stays between base and maximum, unless the sum leaves the range. */
  lemma DelayBounds(p: Policy, attempt: int, drawn: int)
    requires p.IsPositive() && NeverWraps(p)
    ensures var base := BaseDelay(p, attempt);
            var sum := base + BoundedJitter(base, drawn);
            0 < base <= MinDuration(p.max, Wrap(sum)) <= p.max <==> sum <= MAX_INT64
  {
    hide BaseDelay, BoundedJitter;
    BaseInRange(p, attempt);
  }

  lemma BaseInRange(p: Policy, attempt: int)
    requires p.IsPositive() && NeverWraps(p)
    ensures 0 < BaseDelay(p, attempt) <= p.max
  {
    hide BaseDelay;
    var k := if attempt < 1 then 0 else attempt - 1;
    BaseIsClosedForm(p, attempt);
    ScaledPowers(p.initial, k, k);
  }

  /** The delay of an attempt lies between its base and the maximum, whatever the random source gives. */
  ghost predicate AlwaysBetween(p: Policy, attempt: int) {
    var base := BaseDelay(p, attempt);
    forall drawn :: base <= MinDuration(p.max, Wrap(base + BoundedJitter(base, drawn))) <= p.max
  }

  /** It does so for every attempt exactly if the maximum and a fifth of it are in range together. */
  lemma DelayBoundsIff(p: Policy)
    requires p.IsPositive() && NeverWraps(p)
    ensures (forall attempt :: AlwaysBetween(p, attempt)) <==> p.max + p.max / 5 <= MAX_INT64
  {
    hide BaseDelay, NeverWraps, AlwaysBetween;
    if p.max + p.max / 5 <= MAX_INT64 {
      forall attempt ensures AlwaysBetween(p, attempt) {
        SmallMaxBetween(p, attempt);
      }
    } else {
      BaseReachesMax(p);
      LargeMaxOutside(p, p.max + 1);
    }
  }

  lemma SmallMaxBetween(p: Policy, attempt: int)
    requires p.IsPositive() && NeverWraps(p) && p.max + p.max / 5 <= MAX_INT64
    ensures AlwaysBetween(p, attempt)
  {
    hide BaseDelay, NeverWraps, BoundedJitter, Wrap;
    BaseInRange(p, attempt);
    var base := BaseDelay(p, attempt);
    forall drawn ensures base <= MinDuration(p.max, Wrap(base + BoundedJitter(base, drawn))) <= p.max {
      DelayBounds(p, attempt, drawn);
    }
  }

  /** The random source may give a whole fifth of the maximum. */
  lemma LargeMaxOutside(p: Policy, attempt: int)
    requires p.IsPositive() && NeverWraps(p) && p.max + p.max / 5 > MAX_INT64
    requires BaseDelay(p, attempt) == p.max
    ensures !AlwaysBetween(p, attempt)
  {
    hide BaseDelay, NeverWraps;
    assert BoundedJitter(p.max, p.max / 5) == p.max / 5;
    DelayBounds(p, attempt, p.max / 5);
  }

  lemma {:induction false} PowerExceeds(n: nat)
    ensures Power2(n) > n
  {
    if n > 0 {
      PowerExceeds(n - 1);
    }
  }

  /** Some attempt has the maximum as its base. */
  lemma BaseReachesMax(p: Policy)
    requires p.IsPositive() && NeverWraps(p)
    ensures BaseDelay(p, p.max + 1) == p.max
  {
    hide BaseDelay, NeverWraps, Power2;
    BaseIsClosedForm(p, p.max + 1);
    PowerExceeds(p.max);
    Scale(Power2(p.max), 1, p.initial);
  }

  datatype Attempt = Success(body: string) | Failure(retryDelay: int, message: string)

  datatype Call = Requested(attempt: int) | Slept(delay: int)

  /** The connection and the clock, which remember the requests and the waits, in order. */
  class Transport {
    const once: int -> Attempt
    const sleeps: int -> bool
    var log: seq<Call>

    constructor (once: int -> Attempt, sleeps: int -> bool)
      ensures this.once == once && this.sleeps == sleeps && log == []
    {
      this.once, this.sleeps, log := once, sleeps, [];
    }

    method DoOnce(attempt: int) returns (reply: Attempt)
      modifies this`log
      ensures log == old(log) + [Requested(attempt)] && reply == once(attempt)
    {
      log := log + [Requested(attempt)];
      reply := once(attempt);
    }

    /** The wait after an attempt, which may be cancelled. */
    method Sleep(attempt: int, delay: int) returns (done: bool)
      modifies this`log
      ensures log == old(log) + [Slept(delay)] && done == sleeps(attempt)
    {
      log := log + [Slept(delay)];
      done := sleeps(attempt);
    }
  }

  function DelayOf(a: Attempt): int {
    if a.Failure? then a.retryDelay else 0
  }

  /** The requests up to attempt `n`, with the delay of each failure before the next request. */
  function Requests(once: int -> Attempt, n: nat): seq<Call> {
    if n == 0 then []
    else if n == 1 then [Requested(1)]
    else Requests(once, n - 1) + [Slept(DelayOf(once(n - 1))), Requested(n)]
  }

  function CountRequests(log: seq<Call>): nat {
    if log == [] then 0 else CountRequests(log[..|log| - 1]) + (if log[|log| - 1].Requested? then 1 else 0)
  }

  /** One wait less than requests. */
  lemma {:induction false} RequestsAre(once: int -> Attempt, n: nat)
    ensures CountRequests(Requests(once, n)) == n
    ensures |Requests(once, n)| == if n == 0 then 0 else 2 * n - 1
  {
    if n == 1 {
      assert [Requested(1)][..0] == [];
    } else if n > 1 {
      RequestsAre(once, n - 1);
      var before, log := Requests(once, n - 1), Requests(once, n);
      assert log[..|log| - 1][..|before|] == before;
    }
  }

  lemma NextRequest(once: int -> Attempt, n: nat)
    ensures Requests(once, 1) == [Requested(1)]
    ensures n > 1 ==> Requests(once, n) == Requests(once, n - 1) + [Slept(DelayOf(once(n - 1)))] + [Requested(n)]
  {
  }

  /**
   The retry loop: at most the allowed requests, each but the first after the delay of the failure
   before it. It goes on exactly after a retryable failure whose wait was not cancelled, and ends with
   the last answer.
   */
  method DoWithRetry(p: Policy, transport: Transport) returns (r: Result<string>, ghost calls: nat, ghost cancelled: bool)
    modifies transport`log
    ensures 1 <= calls <= if p.attempts < 1 then 1 else p.attempts
    ensures forall i :: 1 <= i < calls ==>
                          && transport.once(i).Failure? && transport.once(i).retryDelay > 0
                          && transport.sleeps(i)
    ensures cancelled <==> transport.once(calls).Failure? && transport.once(calls).retryDelay > 0 && calls < p.attempts
    ensures cancelled ==> !transport.sleeps(calls)
    ensures transport.log == old(transport.log) + Requests(transport.once, calls)
                             + (if cancelled then [Slept(DelayOf(transport.once(calls)))] else [])
    ensures r == match transport.once(calls)
                 case Success(body) => Ok(body)
                 case Failure(_, message) => Err(if cancelled then "retry wait canceled" else message)
  {
    hide Requests;
    var attempts := p.attempts;
    if attempts < 1 {
      attempts := 1;
    }
    calls, cancelled := 0, false;
    var lastErr := "";
    var attempt := 1;
    ghost var start := transport.log;
    while attempt <= attempts
      invariant 1 <= attempt <= attempts && calls == attempt - 1 && !cancelled
      invariant forall i :: 1 <= i < attempt ==>
                              && transport.once(i).Failure? && transport.once(i).retryDelay > 0
                              && transport.sleeps(i)
      invariant attempt == 1 ==> transport.log == start
      invariant attempt > 1 ==> transport.log == start + Requests(transport.once, attempt - 1)
                                                 + [Slept(DelayOf(transport.once(attempt - 1)))]
      decreases attempts - attempt
    {
      var reply := transport.DoOnce(attempt);
      calls := attempt;
      NextRequest(transport.once, attempt);
      assert transport.log == start + Requests(transport.once, attempt);
      if reply.Success? {
        return Ok(reply.body), calls, false;
      }
      lastErr := reply.message;
      if reply.retryDelay <= 0 || attempt == attempts {
        break;
      }
      var done := transport.Sleep(attempt, reply.retryDelay);
      if !done {
        return Err("retry wait canceled"), calls, true;
      }
      attempt := attempt + 1;
    }
    return Err(lastErr), calls, false;
  }
}
