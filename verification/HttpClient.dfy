/** Executing one request (client.go, do and handleRetry) and configuring the
    client's prices. */
module HttpClient {
  import opened Basics
  import opened EndpointCost
  import opened CostTable
  import TokenBucket
  import Limits = RateLimiter

  const TOO_MANY_REQUESTS := 429
  const MAX_SHIFT := 30
  const TWO_TO_THE_63 := 0x8000_0000_0000_0000

  /** What becomes of one try at sending the request. */
  datatype Exchange = NotBuilt | NoResponse | Reply(status: int, body: string)

  /** Everything outside the client: the exchange of each try, and whether the
      context is cancelled while waiting after it. */
  datatype World = World(exchange: nat -> Exchange, cancelled: nat -> bool)

  datatype Outcome =
    | NotAcquired(why: Limits.AcquireResult)
    | NotMarshalled
    | BuildError
    | TransportError
    | RetryCancelled
    | RateLimitError(retries: nat)
    | APIError(status: int)
    | Success(body: string)

  function Pow2(n: nat): (p: nat)
    ensures p >= 1
  {
    if n == 0 then 1 else 2 * Pow2(n - 1)
  }

  /** 64-bit wrap-around of a duration. */
  function Wrap64(x: int): int {
    (x + TWO_TO_THE_63) % (2 * TWO_TO_THE_63) - TWO_TO_THE_63
  }

  predicate FitsInt64(x: int) {
    -TWO_TO_THE_63 <= x < TWO_TO_THE_63
  }

  function Shift(retries: nat): nat {
    if retries > MAX_SHIFT then MAX_SHIFT else retries
  }

  /** The exponential delay the program means to wait, in nanoseconds. */
  function ExactWait(baseDelay: int, retries: nat): int {
    baseDelay * Pow2(Shift(retries))
  }

  /** The wait after try number `retries`, as 64-bit arithmetic computes it. */
  function BackoffWait(baseDelay: int, retries: nat): int {
    Wrap64(ExactWait(baseDelay, retries))
  }

  function Waits(baseDelay: int, n: nat): (waits: seq<int>)
    ensures |waits| == n
  {
    if n == 0 then [] else Waits(baseDelay, n - 1) + [BackoffWait(baseDelay, n - 1)]
  }

  /** A finished request: its outcome, the tries sent, and the waits begun. */
  datatype Execution = Execution(outcome: Outcome, sent: nat, waits: seq<int>)

  predicate Throttled(world: World, i: nat) {
    world.exchange(i).Reply? && world.exchange(i).status == TOO_MANY_REQUESTS
  }

  /** The number of the last try: the first one that is not throttled, exhausts
      the retries, or is cancelled while waiting. */
  function LastTry(world: World, maxRetries: int, from: nat): nat
    decreases maxRetries - from
  {
    if !Throttled(world, from) || from >= maxRetries || world.cancelled(from) then from
    else LastTry(world, maxRetries, from + 1)
  }

  function OutcomeOf(world: World, maxRetries: int, last: nat): Outcome {
    match world.exchange(last)
    case NotBuilt => BuildError
    case NoResponse => TransportError
    case Reply(status, body) =>
      if status == TOO_MANY_REQUESTS then
        if last >= maxRetries then RateLimitError(last) else RetryCancelled
      else if status >= 400 then APIError(status) else Success(body)
  }

  function Execute(world: World, maxRetries: int, baseDelay: int): Execution {
    var last := LastTry(world, maxRetries, 0);
    Execution(OutcomeOf(world, maxRetries, last),
              if world.exchange(last).NotBuilt? then last else last + 1,
              Waits(baseDelay, if OutcomeOf(world, maxRetries, last).RetryCancelled? then last + 1 else last))
  }

  lemma {:induction false} LastTryIsLast(world: World, maxRetries: int, from: nat)
    ensures var last := LastTry(world, maxRetries, from);
      && last >= from
      && (forall i :: from <= i < last ==> Throttled(world, i) && i < maxRetries && !world.cancelled(i))
      && (!Throttled(world, last) || last >= maxRetries || world.cancelled(last))
    decreases maxRetries - from
  {
    if Throttled(world, from) && from < maxRetries && !world.cancelled(from) {
      LastTryIsLast(world, maxRetries, from + 1);
    }
  }

  function RetriesAllowed(maxRetries: int): nat {
    if maxRetries < 0 then 0 else maxRetries
  }

  /** Retry law: at most maxRetries + 1 tries; a rate-limit error exactly when
      every one of them was throttled and no wait was cancelled; a throttled
      reply never surfaces as an API error. */
  lemma {:induction false} RetryLaw(world: World, maxRetries: int, baseDelay: int)
    ensures var e, m := Execute(world, maxRetries, baseDelay), RetriesAllowed(maxRetries);
      && e.sent <= m + 1
      && (e.outcome.RateLimitError?
          <==> (forall i: nat :: i <= m ==> Throttled(world, i)) && (forall i: nat :: i < m ==> !world.cancelled(i)))
      && (e.outcome.RateLimitError? ==> e.sent == m + 1 && e.outcome.retries == m && e.waits == Waits(baseDelay, m))
      && e.outcome != APIError(TOO_MANY_REQUESTS)
  {
    var last, m := LastTry(world, maxRetries, 0), RetriesAllowed(maxRetries);
    LastTryIsLast(world, maxRetries, 0);
    if last > 0 {
      assert Throttled(world, last - 1);
    }
    assert last <= m;
    if OutcomeOf(world, maxRetries, last).RateLimitError? {
      assert last == m && Throttled(world, m);
    } else if Throttled(world, last) {
      assert last < m && world.cancelled(last);
    }
  }

  /** What try number `i` decides when all before it were answered with 429 and none
      of their waits was cancelled: a final reply of 400 or more is an API error with
      its status, any other a success with its body. */
  lemma {:induction false} TryDecides(world: World, maxRetries: int, baseDelay: int, i: nat)
    requires i <= (if maxRetries < 0 then 0 else maxRetries)
    requires forall j: nat :: j < i ==>
               world.exchange(j).Reply? && world.exchange(j).status == 429 && !world.cancelled(j)
    ensures var e := Execute(world, maxRetries, baseDelay);
      match world.exchange(i)
      case NotBuilt => e.outcome == BuildError && e.sent == i && |e.waits| == i
      case NoResponse => e.outcome == TransportError && e.sent == i + 1 && |e.waits| == i
      case Reply(status, body) =>
        && (status != 429 ==>
              && e.outcome == (if status >= 400 then APIError(status) else Success(body))
              && e.sent == i + 1 && |e.waits| == i)
        && (status == 429 && i < maxRetries && world.cancelled(i) ==>
              e.outcome == RetryCancelled && e.sent == i + 1 && |e.waits| == i + 1)
  {
    LastTryReaches(world, maxRetries, 0, i);
  }

  lemma {:induction false} LastTryReaches(world: World, maxRetries: int, from: nat, i: nat)
    requires from <= i && (i > from ==> i <= maxRetries)
    requires forall j: nat :: from <= j < i ==> Throttled(world, j) && !world.cancelled(j)
    ensures LastTry(world, maxRetries, from) == LastTry(world, maxRetries, i)
    decreases i - from
  {
    if from < i {
      LastTryReaches(world, maxRetries, from + 1, i);
    }
  }

  /** The wait after each try: the base delay after the first, twice the last wait
      after each further one up to the 31st, and the same from then on; as far as 64
      bits hold it, and otherwise congruent to it. */
  lemma {:induction false} BackoffMeaning(baseDelay: int, n: nat, i: nat)
    requires i < n
    ensures Waits(baseDelay, n)[i] == BackoffWait(baseDelay, i)
    ensures ExactWait(baseDelay, 0) == baseDelay
    ensures ExactWait(baseDelay, i + 1) == if i < 30 then 2 * ExactWait(baseDelay, i) else ExactWait(baseDelay, i)
    ensures -0x8000_0000_0000_0000 <= BackoffWait(baseDelay, i) < 0x8000_0000_0000_0000
    ensures (BackoffWait(baseDelay, i) - ExactWait(baseDelay, i)) % 0x1_0000_0000_0000_0000 == 0
  {
    if i < n - 1 {
      BackoffMeaning(baseDelay, n - 1, i);
    }
    if i < 30 {
      assert Pow2(i + 1) == 2 * Pow2(i);
      MulAdds(baseDelay, Pow2(i), Pow2(i));
    }
    WrapIsCongruent(ExactWait(baseDelay, i));
  }

  lemma {:induction false} WrapIsCongruent(x: int)
    ensures FitsInt64(Wrap64(x)) && (Wrap64(x) - x) % 0x1_0000_0000_0000_0000 == 0
  {
    var y := x + TWO_TO_THE_63;
    assert y == 0x1_0000_0000_0000_0000 * (y / 0x1_0000_0000_0000_0000) + y % 0x1_0000_0000_0000_0000;
    assert Wrap64(x) - x == -(y / 0x1_0000_0000_0000_0000) * 0x1_0000_0000_0000_0000;
  }

  function Sum(xs: seq<int>): int {
    if xs == [] then 0 else Sum(xs[..|xs| - 1]) + xs[|xs| - 1]
  }

  lemma {:induction false} Pow2Monotone(m: nat, n: nat)
    requires m <= n
    ensures Pow2(m) <= Pow2(n)
    decreases n
  {
    if m < n {
      Pow2Monotone(m, n - 1);
    }
  }

  lemma {:induction false} WrapIsExactIff(x: int)
    ensures Wrap64(x) == x <==> FitsInt64(x)
  {
  }

  /** No wait among the first n wraps around exactly when the longest fits. */
  lemma {:induction false} NoOverflowIff(baseDelay: int, n: nat)
    requires n > 0
    ensures (forall i: nat :: i < n ==> BackoffWait(baseDelay, i) == ExactWait(baseDelay, i))
        <==> FitsInt64(ExactWait(baseDelay, n - 1))
  {
    WrapIsExactIff(ExactWait(baseDelay, n - 1));
    if FitsInt64(ExactWait(baseDelay, n - 1)) {
      forall i: nat | i < n ensures BackoffWait(baseDelay, i) == ExactWait(baseDelay, i) {
        Pow2Monotone(Shift(i), Shift(n - 1));
        ScaledFits(baseDelay, Pow2(Shift(i)), Pow2(Shift(n - 1)));
        WrapIsExactIff(ExactWait(baseDelay, i));
      }
    }
  }

  lemma {:induction false} ScaledFits(x: int, p: nat, q: nat)
    requires p <= q && FitsInt64(x * q)
    ensures FitsInt64(x * p)
  {
    if x >= 0 {
      assert 0 <= x * p <= x * q;
    } else {
      assert x * q <= x * p <= 0;
    }
  }

  /** Delays below 2^33 ns (and negative ones down to -2^33, which the
      constructor's option does not refuse) never overflow, however many retries;
      all others do. */
  lemma {:induction false} SafeBaseDelay(baseDelay: int)
    ensures (forall n: nat :: FitsInt64(ExactWait(baseDelay, n))) <==> -0x2_0000_0000 <= baseDelay < 0x2_0000_0000
  {
    assert Pow2(30) == 0x4000_0000 by { Pow2Thirty(); }
    forall n: nat ensures Pow2(Shift(n)) <= Pow2(30) {
      Pow2Monotone(Shift(n), 30);
    }
    if -0x2_0000_0000 <= baseDelay < 0x2_0000_0000 {
      forall n: nat ensures FitsInt64(ExactWait(baseDelay, n)) {
        ScaledFits(baseDelay, Pow2(Shift(n)), Pow2(30));
      }
    } else {
      assert Shift(30) == 30;
      assert !FitsInt64(ExactWait(baseDelay, 30));
    }
  }

  lemma {:induction false} Pow2Thirty()
    ensures Pow2(30) == 0x4000_0000
  {
    Pow2Adds(5, 5);
    assert Pow2(5) == 32;
    Pow2Adds(10, 10);
    Pow2Adds(20, 10);
  }

  lemma {:induction false} Pow2Adds(m: nat, n: nat)
    ensures Pow2(m + n) == Pow2(m) * Pow2(n)
  {
    if m > 0 {
      Pow2Adds(m - 1, n);
    }
  }

  /** How many base delays n retries wait: 2^n - 1, and from the 32nd retry on
      2^30 more for each. */
  function DelayUnits(n: nat): int {
    if n <= MAX_SHIFT + 1 then Pow2(n) - 1
    else Pow2(MAX_SHIFT + 1) - 1 + (n - MAX_SHIFT - 1) * Pow2(MAX_SHIFT)
  }

  /** The total wait of n retries that do not overflow. */
  lemma {:induction false} TotalWait(baseDelay: int, n: nat)
    requires forall i: nat :: i < n ==> BackoffWait(baseDelay, i) == ExactWait(baseDelay, i)
    ensures Sum(Waits(baseDelay, n))
         == baseDelay * if n <= 31 then Pow2(n) - 1 else 0x7fff_ffff + (n - 31) * 0x4000_0000
  {
    Pow2Thirty();
    assert Pow2(31) == 2 * Pow2(30);
    WaitsAddUp(baseDelay, n);
  }

  lemma {:induction false} WaitsAddUp(baseDelay: int, n: nat)
    requires forall i: nat :: i < n ==> BackoffWait(baseDelay, i) == ExactWait(baseDelay, i)
    ensures Sum(Waits(baseDelay, n)) == baseDelay * DelayUnits(n)
  {
    if n > 0 {
      WaitsAddUp(baseDelay, n - 1);
      var waits := Waits(baseDelay, n);
      assert waits[..|waits| - 1] == Waits(baseDelay, n - 1);
      hide Pow2, DelayUnits;
      DelayUnitsStep(n);
      MulAdds(baseDelay, DelayUnits(n - 1), Pow2(Shift(n - 1)));
    } else {
      assert DelayUnits(0) == 0;
    }
  }

  lemma {:induction false} DelayUnitsStep(n: nat)
    requires n > 0
    ensures DelayUnits(n) == DelayUnits(n - 1) + Pow2(Shift(n - 1))
  {
  }

  lemma {:induction false} MulAdds(x: int, y: int, z: int)
    ensures x * (y + z) == x * y + x * z
  {
  }

  /** What the account-limits and endpoint-costs calls return; `None` is an
      error. */
  datatype PriceList = PriceList(entries: seq<Entry>, defaultCost: real)

  method BuildRoutes(entries: seq<Entry>) returns (routes: seq<CostRoute>)
    ensures routes == RoutesOf(entries)
  {
    hide RouteOf;
    routes := [];
    for i := 0 to |entries|
      invariant |routes| == i && forall j :: 0 <= j < i ==> routes[j] == RoutesOf(entries)[j]
    {
      var route := NewCostRoute(entries[i].verb, entries[i].path, entries[i].cost);
      routes := routes + [route];
    }
  }

  class Client {
    var limiter: Limits.ReadWriteTokenBucket
    var table: Option<seq<CostRoute>>
    var defaultCost: real
    const maxRetries: int
    const baseDelay: int

    constructor (limiter: Limits.ReadWriteTokenBucket, maxRetries: int, baseDelay: int)
      ensures this.limiter == limiter && this.maxRetries == maxRetries && this.baseDelay == baseDelay
      ensures ClientPrices() == Prices(None, 0.0)
    {
      this.limiter := limiter;
      this.table, this.defaultCost := None, 0.0;
      this.maxRetries, this.baseDelay := maxRetries, baseDelay;
    }

    function ClientPrices(): Prices
      reads this
    {
      Prices(table, defaultCost)
    }

    /** Installs a full limiter and the sorted cost table, or changes nothing if
        either call failed. Rates that are not positive make it panic. */
    method ConfigureRateLimits(limits: Option<TokenBucket.Config>, costs: Option<PriceList>, now: real)
      returns (ok: bool)
      requires limits.Some? ==> limits.value.Valid()
      modifies this
      ensures ok <==> limits.Some? && costs.Some?
      ensures !ok ==> limiter == old(limiter) && ClientPrices() == old(ClientPrices())
      ensures ok ==> fresh(limiter) && limiter.State() == TokenBucket.Full(limits.value, now)
      ensures ok ==> ClientPrices() == Prices(Some(Table(RoutesOf(costs.value.entries))), costs.value.defaultCost)
    {
      if limits.None? {
        return false;
      }
      var newLimiter := new Limits.ReadWriteTokenBucket(limits.value, now);
      if costs.None? {
        return false;
      }
      var routes := BuildRoutes(costs.value.entries);
      limiter := newLimiter;
      table := Some(Table(routes));
      defaultCost := costs.value.defaultCost;
      return true;
    }

    /** One request: priced, debited once, then sent with retries. */
    method Do(verb: string, path: string, caller: TokenBucket.Cost, units: int, marshals: bool,
              rounds: seq<Limits.Round>, world: World)
      returns (outcome: Outcome, sent: nat, waits: seq<int>)
      requires limiter.cfg.Valid()
      modifies limiter`readTokens, limiter`writeTokens, limiter`lastRefill
      ensures var cost := Resolve(old(ClientPrices()), verb, path, caller, units);
              var a := Limits.Acquire(old(limiter.State()), cost, rounds);
        && limiter.State() == TokenBucket.After(old(limiter.State()), a.ops)
        && Execution(outcome, sent, waits)
           == if !a.result.Granted? then Execution(NotAcquired(a.result), 0, [])
              else if !marshals then Execution(NotMarshalled, 0, [])
              else Execute(world, maxRetries, baseDelay)
    {
      hide Resolve, Limits.Acquire, TokenBucket.After, Pow2, Wrap64;
      sent, waits := 0, [];
      var cost := Resolve(ClientPrices(), verb, path, caller, units);
      var acquired := limiter.AcquireTokens(cost, rounds);
      if !acquired.Granted? {
        return NotAcquired(acquired), 0, [];
      }
      if !marshals {
        return NotMarshalled, 0, [];
      }
      var retries := 0;
      while true
        invariant sent == retries && waits == Waits(baseDelay, retries)
        invariant LastTry(world, maxRetries, 0) == LastTry(world, maxRetries, retries)
        decreases maxRetries - retries
      {
        var exchange := world.exchange(retries);
        if exchange.NotBuilt? {
          return BuildError, sent, waits;
        }
        sent := sent + 1;
        if exchange.NoResponse? {
          return TransportError, sent, waits;
        }
        if exchange.status == TOO_MANY_REQUESTS {
          if retries >= maxRetries {
            return RateLimitError(retries), sent, waits;
          }
          var shift := retries;
          if shift > MAX_SHIFT {
            shift := MAX_SHIFT;
          }
          waits := waits + [Wrap64(baseDelay * Pow2(shift))];
          if world.cancelled(retries) {
            return RetryCancelled, sent, waits;
          }
          retries := retries + 1;
          continue;
        }
        if exchange.status >= 400 {
          return APIError(exchange.status), sent, waits;
        }
        return Success(exchange.body), sent, waits;
      }
    }
  }
}
