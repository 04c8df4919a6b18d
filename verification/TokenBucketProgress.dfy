/** How long a caller of the bucket waits: what the returned duration is worth,
    and how many tries competing callers need (ratelimit.go, Acquire). */
module TokenBucketProgress {
  import opened TokenBucket

  predicate WithinCapacity(cfg: Config, cost: Cost) {
    cost.read <= cfg.Cap(Read) && cost.write <= cfg.Cap(Write)
  }

  /** A wait the caller can rely on: never zero (zero means "granted" to
      Acquire), and long enough for every pool to make up its shortage. */
  ghost predicate WaitCovers(b: Bucket, cost: Cost)
    requires b.cfg.Valid()
  {
    var wait := WaitNanos(b, cost);
    CanProceed(b, cost)
    || (wait > 0
        && wait as real >= Shortage(b, cost, Read) * NANOS_PER_SECOND
        && wait as real >= Shortage(b, cost, Write) * NANOS_PER_SECOND)
  }

  ghost predicate AllWaitsCover(cfg: Config)
    requires cfg.Valid()
  {
    forall b: Bucket, cost: Cost | b.Valid() && b.cfg == cfg && WithinCapacity(cfg, cost) :: WaitCovers(b, cost)
  }

  /** Truncating the wait to whole nanoseconds is safe exactly when the safety
      padding is worth at least one nanosecond. */
  lemma {:induction false} WaitsCoverIffPadded(cfg: Config)
    requires cfg.Valid()
    ensures AllWaitsCover(cfg) <==> cfg.safetyPadding * NANOS_PER_SECOND >= 1.0
  {
    if cfg.safetyPadding * NANOS_PER_SECOND >= 1.0 {
      forall b: Bucket, cost: Cost | b.Valid() && b.cfg == cfg && WithinCapacity(cfg, cost)
        ensures WaitCovers(b, cost)
      {
      }
    } else {
      UnpaddedWaitFallsShort(cfg);
    }
  }

  lemma {:induction false} ShortageIsNotNegative(b: Bucket, cost: Cost, side: Side)
    requires b.Valid()
    ensures Shortage(b, cost, side) >= 0.0
  {
  }

  /** The longest shortage, in seconds, a request within capacity can meet. */
  function LongestShortage(cfg: Config): real
    requires cfg.Valid()
  {
    Max(cfg.Cap(Read) / cfg.readRate, cfg.Cap(Write) / cfg.writeRate)
  }

  /** Every shortage up to the longest one does occur. */
  lemma {:induction false} ShortageOccurs(cfg: Config, seconds: real) returns (b: Bucket, cost: Cost)
    requires cfg.Valid() && 0.0 < seconds <= LongestShortage(cfg)
    ensures b.Valid() && b.cfg == cfg && WithinCapacity(cfg, cost) && !CanProceed(b, cost)
    ensures Max(Max(0.0, Shortage(b, cost, Read)), Shortage(b, cost, Write)) == seconds
  {
    if seconds <= cfg.Cap(Read) / cfg.readRate {
      var deficit := DeficitOf(cfg.Cap(Read), cfg.readRate, seconds);
      b, cost := Bucket(cfg, cfg.Cap(Read) - deficit, cfg.Cap(Write), 0.0), Cost(cfg.Cap(Read), 0.0);
    } else {
      var deficit := DeficitOf(cfg.Cap(Write), cfg.writeRate, seconds);
      b, cost := Bucket(cfg, cfg.Cap(Read), cfg.Cap(Write) - deficit, 0.0), Cost(0.0, cfg.Cap(Write));
    }
  }

  /** The number of tokens that takes `seconds` to produce. */
  lemma {:induction false} DeficitOf(cap: real, rate: real, seconds: real) returns (deficit: real)
    requires rate > 0.0 && 0.0 < seconds <= cap / rate
    ensures 0.0 < deficit <= cap && deficit / rate == seconds
  {
    deficit := seconds * rate;
    QuotientTimes(cap, rate);
  }

  /** With less padding a small enough shortage is truncated away. */
  lemma {:induction false} UnpaddedWaitFallsShort(cfg: Config)
    requires cfg.Valid() && cfg.safetyPadding * NANOS_PER_SECOND < 1.0
    ensures !AllWaitsCover(cfg)
  {
    var pad := cfg.safetyPadding * NANOS_PER_SECOND;
    LongestShortageIsPositive(cfg);
    var seconds := Min((1.0 - pad) / (2.0 * NANOS_PER_SECOND), LongestShortage(cfg));
    var b, cost := ShortageOccurs(cfg, seconds);
    var x := (seconds + cfg.safetyPadding) * NANOS_PER_SECOND;
    assert x == seconds * NANOS_PER_SECOND + pad < 1.0;
    assert WaitNanos(b, cost) == TowardZero(x) <= 0;
    assert !WaitCovers(b, cost);
  }

  lemma {:induction false} LongestShortageIsPositive(cfg: Config)
    requires cfg.Valid()
    ensures LongestShortage(cfg) > 0.0
  {
    QuotientTimes(cfg.Cap(Read), cfg.readRate);
  }

  /** Acquire takes a zero wait for "granted". */
  ghost predicate ZeroWaitMeansGranted(cfg: Config)
    requires cfg.Valid()
  {
    forall b: Bucket, cost: Cost | b.Valid() && b.cfg == cfg && WithinCapacity(cfg, cost) ::
      CanProceed(b, cost) || WaitNanos(b, cost) != 0
  }

  /** That reading is right exactly when no padded shortage falls strictly
      between minus one and plus one nanosecond. */
  lemma {:induction false} ZeroWaitIff(cfg: Config)
    requires cfg.Valid()
    ensures ZeroWaitMeansGranted(cfg) <==>
            (cfg.safetyPadding * NANOS_PER_SECOND >= 1.0
             || (LongestShortage(cfg) + cfg.safetyPadding) * NANOS_PER_SECOND <= -1.0)
  {
    var pad, most := cfg.safetyPadding * NANOS_PER_SECOND, LongestShortage(cfg);
    if pad < 1.0 && (most + cfg.safetyPadding) * NANOS_PER_SECOND > -1.0 {
      LongestShortageIsPositive(cfg);
      var target := if pad > -1.0 then (1.0 - pad) / 2.0 else -pad;
      var seconds := Min(target / NANOS_PER_SECOND, most);
      var b, cost := ShortageOccurs(cfg, seconds);
      assert -1.0 < (seconds + cfg.safetyPadding) * NANOS_PER_SECOND < 1.0;
      assert WaitNanos(b, cost) == 0;
    } else {
      forall b: Bucket, cost: Cost | b.Valid() && b.cfg == cfg && WithinCapacity(cfg, cost) && !CanProceed(b, cost)
        ensures WaitNanos(b, cost) != 0
      {
        if pad >= 1.0 {
        } else {
          ShortageAtMost(b, cost, Read);
          ShortageAtMost(b, cost, Write);
          LongestShortageIsPositive(cfg);
        }
      }
    }
  }

  lemma {:induction false} ShortageAtMost(b: Bucket, cost: Cost, side: Side)
    requires b.Valid() && WithinCapacity(b.cfg, cost)
    ensures Shortage(b, cost, side) <= b.cfg.Cap(side) / b.cfg.Rate(side)
  {
    var cap, rate := b.cfg.Cap(side), b.cfg.Rate(side);
    QuotientTimes(cap, rate);
    if cost.Of(side) > 0.0 && b.Tokens(side) < cost.Of(side) {
      QuotientMonotone(cost.Of(side) - b.Tokens(side), cap, rate);
    }
  }

  lemma {:induction false} QuotientMonotone(x: real, y: real, z: real)
    requires x <= y && z > 0.0
    ensures x / z <= y / z
  {
  }

  lemma {:induction false} QuotientTimes(x: real, y: real)
    requires y > 0.0
    ensures (x / y) * y == x
    ensures x > 0.0 ==> x / y > 0.0
  {
  }

  // ---------------------------------------------------------------------
  // One caller
  // ---------------------------------------------------------------------

  /** After waiting the duration returned for a failed try, an otherwise
      untouched bucket grants the request, even if its own refill time was ahead
      of the caller's reading by up to the padding less one nanosecond. */
  lemma {:induction false} WaitSuffices(b: Bucket, cost: Cost, now: real, later: real)
    requires b.Valid() && (b.lastRefill - now) * NANOS_PER_SECOND <= b.cfg.safetyPadding * NANOS_PER_SECOND - 1.0
    requires b.cfg.safetyPadding * NANOS_PER_SECOND >= 1.0 && WithinCapacity(b.cfg, cost)
    requires !CanProceed(Refill(b, now), cost)
    requires (later - now) * NANOS_PER_SECOND >= WaitNanos(Refill(b, now), cost) as real
    ensures CanProceed(Refill(b, later), cost)
  {
    var r, wait := Refill(b, now), WaitNanos(Refill(b, now), cost) as real;
    RefillKeepsValid(b, now);
    var ahead := (r.lastRefill - now) * NANOS_PER_SECOND;
    assert ahead <= r.cfg.safetyPadding * NANOS_PER_SECOND - 1.0;
    assert (later - r.lastRefill) * NANOS_PER_SECOND >= wait - ahead;
    LongEnough(r, cost, later);
    if b.lastRefill <= now {
      RefillAbsorbs(b, now, later);
    }
  }

  lemma {:induction false} LongEnough(r: Bucket, cost: Cost, later: real)
    requires r.Valid() && WithinCapacity(r.cfg, cost)
    requires (later - r.lastRefill) * NANOS_PER_SECOND > Shortage(r, cost, Read) * NANOS_PER_SECOND
    requires (later - r.lastRefill) * NANOS_PER_SECOND > Shortage(r, cost, Write) * NANOS_PER_SECOND
    ensures CanProceed(Refill(r, later), cost)
  {
    ShortageIsNotNegative(r, cost, Read);
    PoolRecovers(r, cost, Read, later);
    PoolRecovers(r, cost, Write, later);
  }

  /** However a refused caller's clock lies behind the bucket's by `ahead`
      seconds, waiting as told is enough. */
  ghost predicate WaitsSufficeBehind(cfg: Config, ahead: real)
    requires cfg.Valid()
  {
    forall b: Bucket, cost: Cost, now: real, later: real |
      b.Valid() && b.cfg == cfg && WithinCapacity(cfg, cost) && b.lastRefill - now == ahead
      && !CanProceed(Refill(b, now), cost)
      && (later - now) * NANOS_PER_SECOND >= WaitNanos(Refill(b, now), cost) as real ::
      CanProceed(Refill(b, later), cost)
  }

  /** The exact size of the step back a wait absorbs: the padding less one
      nanosecond; or, when not even the longest shortage reaches the next whole
      nanosecond, what that shortage leaves of the padding's whole nanoseconds. */
  lemma {:induction false} WaitsSufficeBehindIff(cfg: Config, ahead: real)
    requires cfg.Valid() && ahead >= 0.0
    ensures var pad := cfg.safetyPadding * NANOS_PER_SECOND;
            WaitsSufficeBehind(cfg, ahead)
            <==> (ahead * NANOS_PER_SECOND <= pad - 1.0
                  || (ahead + LongestShortage(cfg)) * NANOS_PER_SECOND <= pad.Floor as real)
  {
    var pad, most, step := cfg.safetyPadding * NANOS_PER_SECOND, LongestShortage(cfg), ahead * NANOS_PER_SECOND;
    LongestShortageIsPositive(cfg);
    if step <= pad - 1.0 || (ahead + most) * NANOS_PER_SECOND <= pad.Floor as real {
      forall b: Bucket, cost: Cost, now: real, later: real |
        b.Valid() && b.cfg == cfg && WithinCapacity(cfg, cost) && b.lastRefill - now == ahead
        && !CanProceed(Refill(b, now), cost)
        && (later - now) * NANOS_PER_SECOND >= WaitNanos(Refill(b, now), cost) as real
        ensures CanProceed(Refill(b, later), cost)
      {
        if step <= pad - 1.0 {
          WaitSuffices(b, cost, now, later);
        } else {
          ShortWaitSuffices(b, cost, now, later);
        }
      }
    } else {
      var seconds := BadShortage(cfg.safetyPadding, ahead, most);
      var b, cost := ShortageOccurs(cfg, seconds);
      StillShort(b, cost, seconds, ahead);
    }
  }

  lemma {:induction false} ShortWaitSuffices(b: Bucket, cost: Cost, now: real, later: real)
    requires b.Valid() && b.lastRefill >= now && WithinCapacity(b.cfg, cost) && !CanProceed(b, cost)
    requires (b.lastRefill - now + LongestShortage(b.cfg)) * NANOS_PER_SECOND
          <= (b.cfg.safetyPadding * NANOS_PER_SECOND).Floor as real
    requires (later - now) * NANOS_PER_SECOND >= WaitNanos(b, cost) as real
    ensures CanProceed(Refill(b, later), cost)
  {
    ShortageIsNotNegative(b, cost, Read);
    ShortageIsNotNegative(b, cost, Write);
    ShortageAtMost(b, cost, Read);
    ShortageAtMost(b, cost, Write);
    var pad, seconds := b.cfg.safetyPadding * NANOS_PER_SECOND,
        Max(Max(0.0, Shortage(b, cost, Read)), Shortage(b, cost, Write));
    LongestShortageIsPositive(b.cfg);
    assert (seconds + b.cfg.safetyPadding) * NANOS_PER_SECOND >= pad;
    assert WaitNanos(b, cost) >= pad.Floor;
    assert later - b.lastRefill >= LongestShortage(b.cfg) >= seconds;
    PoolRecovers(b, cost, Read, later);
    PoolRecovers(b, cost, Write, later);
  }

  /** A shortage whose wait, truncated, does not make up for the step back. */
  lemma {:induction false} BadShortage(padding: real, ahead: real, longest: real) returns (seconds: real)
    requires ahead >= 0.0 && longest > 0.0
    requires ahead * NANOS_PER_SECOND > padding * NANOS_PER_SECOND - 1.0
    requires (ahead + longest) * NANOS_PER_SECOND > (padding * NANOS_PER_SECOND).Floor as real
    ensures 0.0 < seconds <= longest
    ensures TowardZero((seconds + padding) * NANOS_PER_SECOND) as real < (seconds + ahead) * NANOS_PER_SECOND
  {
    var pad := padding * NANOS_PER_SECOND;
    var nanos := BadNanos(pad, ahead * NANOS_PER_SECOND, longest * NANOS_PER_SECOND);
    seconds := nanos / NANOS_PER_SECOND;
    assert seconds * NANOS_PER_SECOND == nanos;
    assert (seconds + padding) * NANOS_PER_SECOND == nanos + pad;
  }

  lemma {:induction false} BadNanos(pad: real, step: real, most: real) returns (nanos: real)
    requires step >= 0.0 && most > 0.0 && step > pad - 1.0 && step + most > pad.Floor as real
    ensures 0.0 < nanos <= most && TowardZero(nanos + pad) as real < nanos + step
  {
    if pad < 0.0 {
      nanos := Min(most, -pad);
    } else {
      var whole := pad.Floor as real;
      nanos := Between(Max(0.0, whole - step), Min(whole + 1.0 - pad, most));
      FloorIs(nanos + pad, pad.Floor);
    }
  }

  lemma {:induction false} Between(low: real, high: real) returns (x: real)
    requires low < high
    ensures low < x < high
  {
    x := (low + high) / 2.0;
  }

  lemma {:induction false} FloorIs(x: real, n: int)
    requires n as real <= x < n as real + 1.0
    ensures x.Floor == n
  {
  }

  lemma {:induction false} StillShort(b: Bucket, cost: Cost, seconds: real, ahead: real)
    requires b.Valid() && WithinCapacity(b.cfg, cost) && !CanProceed(b, cost) && seconds > 0.0 && ahead >= 0.0
    requires Max(Max(0.0, Shortage(b, cost, Read)), Shortage(b, cost, Write)) == seconds
    requires TowardZero((seconds + b.cfg.safetyPadding) * NANOS_PER_SECOND) as real
             < (seconds + ahead) * NANOS_PER_SECOND
    ensures !WaitsSufficeBehind(b.cfg, ahead)
  {
    var now := b.lastRefill - ahead;
    var later := now + WaitNanos(b, cost) as real / NANOS_PER_SECOND;
    assert Refill(b, now) == b;
    assert (later - now) * NANOS_PER_SECOND == WaitNanos(b, cost) as real;
    assert later - b.lastRefill < seconds;
    if Shortage(b, cost, Read) == seconds {
      PoolStaysShort(b, cost, Read, later);
    } else {
      PoolStaysShort(b, cost, Write, later);
    }
    assert !CanProceed(Refill(b, later), cost);
  }

  lemma {:induction false} PoolStaysShort(b: Bucket, cost: Cost, side: Side, later: real)
    requires b.Valid() && Shortage(b, cost, side) > 0.0 && later - b.lastRefill < Shortage(b, cost, side)
    ensures Refill(b, later).Tokens(side) < cost.Of(side)
  {
    var rate, elapsed, shortage := b.cfg.Rate(side), later - b.lastRefill, Shortage(b, cost, side);
    QuotientTimes(cost.Of(side) - b.Tokens(side), rate);
    assert Produced(rate, shortage) == cost.Of(side) - b.Tokens(side);
    if elapsed > 0.0 {
      TimesLess(rate, elapsed, shortage);
    }
  }

  lemma {:induction false} TimesLess(rate: real, x: real, y: real)
    requires rate > 0.0 && x < y
    ensures Produced(rate, x) < Produced(rate, y)
  {
  }

  lemma {:induction false} PoolRecovers(r: Bucket, cost: Cost, side: Side, later: real)
    requires r.Valid() && cost.Of(side) <= r.cfg.Cap(side)
    requires later >= r.lastRefill && later - r.lastRefill >= Shortage(r, cost, side)
    ensures cost.Of(side) > 0.0 ==> Refill(r, later).Tokens(side) >= cost.Of(side)
  {
    var rate, shortage, elapsed := r.cfg.Rate(side), Shortage(r, cost, side), later - r.lastRefill;
    ShortageIsNotNegative(r, cost, side);
    ProducedAdds(rate, shortage, elapsed - shortage);
    assert shortage + (elapsed - shortage) == elapsed;
    ProducedIsNotNegative(rate, elapsed - shortage);
    ProducedIsNotNegative(rate, elapsed);
    if cost.Of(side) > 0.0 && r.Tokens(side) < cost.Of(side) {
      QuotientTimes(cost.Of(side) - r.Tokens(side), rate);
      assert Produced(rate, shortage) == cost.Of(side) - r.Tokens(side);
      assert elapsed > 0.0;
    }
  }

  // ---------------------------------------------------------------------
  // Many callers
  // ---------------------------------------------------------------------

  lemma {:induction false} AfterSnoc(b: Bucket, ops: seq<Op>, op: Op)
    ensures After(b, ops + [op]) == Step(After(b, ops), op)
    decreases |ops|
  {
    if ops == [] {
      assert After(b, [op]) == After(Step(b, op), [op][1..]);
      assert [op][1..] == [];
      assert ops + [op] == [op];
    } else {
      assert (ops + [op])[1..] == ops[1..] + [op];
      AfterSnoc(Step(b, ops[0]), ops[1..], op);
    }
  }

  /** The bucket just before operation `i` of a run. */
  function Before(b: Bucket, ops: seq<Op>, i: nat): Bucket
    requires i <= |ops|
  {
    After(b, ops[..i])
  }

  predicate GrantedAt(b: Bucket, ops: seq<Op>, i: nat)
    requires i < |ops|
  {
    Grants(Before(b, ops, i), ops[i])
  }

  lemma {:induction false} BeforeNext(b: Bucket, ops: seq<Op>, i: nat)
    requires i < |ops|
    ensures Before(b, ops, i + 1) == Step(Before(b, ops, i), ops[i])
  {
    assert ops[..i + 1] == ops[..i] + [ops[i]];
    AfterSnoc(b, ops[..i], ops[i]);
  }

  lemma {:induction false} BeforeIsValid(b: Bucket, ops: seq<Op>, i: nat)
    requires b.Valid() && i <= |ops| && Monotone(ops)
    requires ops != [] ==> b.lastRefill <= ops[0].now
    ensures Before(b, ops, i).Valid() && Before(b, ops, i).cfg == b.cfg
    ensures i < |ops| ==> Before(b, ops, i).lastRefill <= ops[i].now
  {
    if i > 0 {
      BeforeIsValid(b, ops, i - 1);
      BeforeNext(b, ops, i - 1);
      StepKeepsValid(Before(b, ops, i - 1), ops[i - 1]);
    }
  }

  /** While nothing is granted, the passage of time is all that counts. */
  lemma {:induction false} QuietStretch(b: Bucket, ops: seq<Op>, i: nat, j: nat)
    requires b.Valid() && i <= j < |ops| && Monotone(ops) && b.lastRefill <= ops[0].now
    requires forall k :: i <= k < j ==> !GrantedAt(b, ops, k)
    ensures Refill(Before(b, ops, j), ops[j].now) == Refill(Before(b, ops, i), ops[j].now)
    decreases j - i
  {
    if i < j {
      assert !GrantedAt(b, ops, i);
      BeforeIsValid(b, ops, i);
      BeforeNext(b, ops, i);
      RefillAbsorbs(Before(b, ops, i), ops[i].now, ops[j].now);
      QuietStretch(b, ops, i + 1, j);
    }
  }

  /** Progress under contention: a caller that waited as told and still fails
      was overtaken, in between, by somebody who was granted tokens. */
  lemma {:induction false} FailedRetryMeansOvertaken(b: Bucket, ops: seq<Op>, i: nat, j: nat)
    requires b.Valid() && i < j < |ops| && Monotone(ops) && b.lastRefill <= ops[0].now
    requires ops[i].TryAcquire? && ops[j].TryAcquire? && ops[i].cost == ops[j].cost
    requires b.cfg.safetyPadding * NANOS_PER_SECOND >= 1.0 && WithinCapacity(b.cfg, ops[i].cost)
    requires !GrantedAt(b, ops, i) && !GrantedAt(b, ops, j)
    requires b.cfg.Valid() && Before(b, ops, i).cfg == b.cfg
    requires (ops[j].now - ops[i].now) * NANOS_PER_SECOND
          >= WaitNanos(Refill(Before(b, ops, i), ops[i].now), ops[i].cost) as real
    ensures exists k :: i < k < j && GrantedAt(b, ops, k)
  {
    BeforeIsValid(b, ops, i);
    if forall k :: i < k < j ==> !GrantedAt(b, ops, k) {
      QuietStretch(b, ops, i, j);
      WaitSuffices(Before(b, ops, i), ops[i].cost, ops[i].now, ops[j].now);
      assert false;
    }
  }

  /** A clock that steps back breaks this: the bucket's own refill time can lie
      ahead of the caller's reading, and the wait is then too short. */
  lemma {:induction false} ClockStepBackBreaksProgress() returns (b: Bucket, cost: Cost, now: real, later: real)
    ensures b.Valid() && b.lastRefill > now && WithinCapacity(b.cfg, cost)
    ensures b.cfg.safetyPadding * NANOS_PER_SECOND >= 1.0
    ensures !CanProceed(Refill(b, now), cost)
    ensures (later - now) * NANOS_PER_SECOND >= WaitNanos(Refill(b, now), cost) as real
    ensures !CanProceed(Refill(b, later), cost)
  {
    b := Bucket(Config(1.0, 1.0, 10.0, 10.0, 0.1), 0.0, 0.0, 100.0);
    cost, now, later := Cost(4.0, 0.0), 50.0, 60.0;
    assert Shortage(b, cost, Read) == 4.0;
    assert WaitNanos(b, cost) == TowardZero(4.1 * NANOS_PER_SECOND);
  }

  /** One try of one caller, with its clock reading. */
  datatype Attempt = Attempt(caller: int, now: real)

  function OpsOf(schedule: seq<Attempt>, costs: int -> Cost): (ops: seq<Op>)
    ensures |ops| == |schedule|
    ensures forall i :: 0 <= i < |ops| ==> ops[i] == TryAcquire(schedule[i].now, costs(schedule[i].caller))
  {
    seq(|schedule|, i requires 0 <= i < |schedule| => TryAcquire(schedule[i].now, costs(schedule[i].caller)))
  }

  /** The caller's most recent try before position `j`, or -1. */
  function LastTry(schedule: seq<Attempt>, caller: int, j: nat): (i: int)
    requires j <= |schedule|
    ensures -1 <= i < j
    ensures i >= 0 ==> schedule[i].caller == caller
    ensures forall k :: i < k < j ==> schedule[k].caller != caller
  {
    if j == 0 then -1
    else if schedule[j - 1].caller == caller then j - 1
    else LastTry(schedule, caller, j - 1)
  }

  /** How often the caller tried before position `j`. */
  function Tries(schedule: seq<Attempt>, caller: int, j: nat): nat
    requires j <= |schedule|
  {
    if j == 0 then 0
    else Tries(schedule, caller, j - 1) + (if schedule[j - 1].caller == caller then 1 else 0)
  }

  /** The bucket just before try `j` of a schedule. */
  function BeforeTry(b: Bucket, schedule: seq<Attempt>, costs: int -> Cost, j: nat): Bucket
    requires j <= |schedule|
  {
    Before(b, OpsOf(schedule, costs), j)
  }

  predicate Wins(b: Bucket, schedule: seq<Attempt>, costs: int -> Cost, j: nat)
    requires j < |schedule|
  {
    GrantedAt(b, OpsOf(schedule, costs), j)
  }

  /** The caller of try `j` was not granted before, and waited as told. */
  ghost predicate ReadyToTry(b: Bucket, schedule: seq<Attempt>, costs: int -> Cost, j: nat)
    requires j < |schedule|
  {
    var i := LastTry(schedule, schedule[j].caller, j);
    i >= 0 ==>
      var r := Refill(BeforeTry(b, schedule, costs, i), schedule[i].now);
      && !Wins(b, schedule, costs, i)
      && r.cfg.Valid()
      && (schedule[j].now - schedule[i].now) * NANOS_PER_SECOND
         >= WaitNanos(r, costs(schedule[j].caller)) as real
  }

  /** Callers follow Acquire: one stops once granted, and tries again only when
      the wait its last try returned is over. */
  ghost predicate FollowsAcquire(b: Bucket, schedule: seq<Attempt>, costs: int -> Cost) {
    forall j :: 0 <= j < |schedule| ==> ReadyToTry(b, schedule, costs, j)
  }

  ghost predicate ClockAdvances(b: Bucket, schedule: seq<Attempt>) {
    && (schedule != [] ==> b.lastRefill <= schedule[0].now)
    && forall i, j :: 0 <= i < j < |schedule| ==> schedule[i].now <= schedule[j].now
  }

  /** Callers granted before position `j`. */
  ghost function Winners(b: Bucket, schedule: seq<Attempt>, costs: int -> Cost, j: nat): set<int>
    requires j <= |schedule|
  {
    set k | 0 <= k < j && Wins(b, schedule, costs, k) :: schedule[k].caller
  }

  lemma {:induction false} TriesSinceLast(schedule: seq<Attempt>, caller: int, j: nat)
    requires j <= |schedule|
    ensures var i := LastTry(schedule, caller, j);
            Tries(schedule, caller, j) == if i < 0 then 0 else Tries(schedule, caller, i + 1)
  {
    if j > 0 && schedule[j - 1].caller != caller {
      TriesSinceLast(schedule, caller, j - 1);
    }
  }

  lemma {:induction false} TriesAre(schedule: seq<Attempt>, caller: int, j: nat)
    requires j <= |schedule|
    ensures Tries(schedule, caller, j) == |set k | 0 <= k < j && schedule[k].caller == caller|
  {
    if j > 0 {
      TriesAre(schedule, caller, j - 1);
      var earlier := set k | 0 <= k < j - 1 && schedule[k].caller == caller;
      assert (set k | 0 <= k < j && schedule[k].caller == caller)
          == if schedule[j - 1].caller == caller then earlier + {j - 1} else earlier;
    }
  }

  /** A caller whose last try failed has not been granted at all. */
  lemma {:induction false} NotYetAWinner(b: Bucket, schedule: seq<Attempt>, costs: int -> Cost, caller: int, j: nat)
    requires j <= |schedule| && FollowsAcquire(b, schedule, costs)
    requires LastTry(schedule, caller, j) >= 0 ==> !Wins(b, schedule, costs, LastTry(schedule, caller, j))
    ensures caller !in Winners(b, schedule, costs, j)
    decreases j
  {
    var i := LastTry(schedule, caller, j);
    if i >= 0 {
      assert ReadyToTry(b, schedule, costs, i);
      NotYetAWinner(b, schedule, costs, caller, i);
      forall k | 0 <= k < j && Wins(b, schedule, costs, k)
        ensures schedule[k].caller != caller
      {
        assert k < i ==> schedule[k].caller in Winners(b, schedule, costs, i);
      }
    }
  }

  /** Between a caller's failed try and its next failed one, somebody new won. */
  lemma {:induction false} NewWinnerBetween(b: Bucket, schedule: seq<Attempt>, costs: int -> Cost, i: nat, j: nat)
    requires b.Valid() && b.cfg.safetyPadding * NANOS_PER_SECOND >= 1.0
    requires ClockAdvances(b, schedule) && FollowsAcquire(b, schedule, costs)
    requires j < |schedule| && i == LastTry(schedule, schedule[j].caller, j)
    requires WithinCapacity(b.cfg, costs(schedule[j].caller))
    requires !Wins(b, schedule, costs, j)
    ensures |Winners(b, schedule, costs, i)| < |Winners(b, schedule, costs, j)|
  {
    var ops := OpsOf(schedule, costs);
    assert ReadyToTry(b, schedule, costs, j);
    BeforeIsValid(b, ops, i);
    FailedRetryMeansOvertaken(b, ops, i, j);
    var k :| i < k < j && GrantedAt(b, ops, k);
    var winner := schedule[k].caller;
    assert Wins(b, schedule, costs, k);
    assert ReadyToTry(b, schedule, costs, k);
    NotYetAWinner(b, schedule, costs, winner, k);
    assert Winners(b, schedule, costs, i) <= Winners(b, schedule, costs, k);
    SubsetIsSmaller(Winners(b, schedule, costs, i) + {winner}, Winners(b, schedule, costs, j));
  }

  /** Each failed try beyond the first is paid for by a new winner. */
  lemma {:induction false} FailuresNeedWinners(b: Bucket, schedule: seq<Attempt>, costs: int -> Cost, j: nat)
    requires b.Valid() && b.cfg.safetyPadding * NANOS_PER_SECOND >= 1.0
    requires ClockAdvances(b, schedule) && FollowsAcquire(b, schedule, costs)
    requires forall caller :: WithinCapacity(b.cfg, costs(caller))
    requires j < |schedule| && !Wins(b, schedule, costs, j)
    ensures Tries(schedule, schedule[j].caller, j + 1) <= 1 + |Winners(b, schedule, costs, j)|
    decreases j
  {
    var caller := schedule[j].caller;
    var i := LastTry(schedule, caller, j);
    TriesSinceLast(schedule, caller, j);
    if i >= 0 {
      assert ReadyToTry(b, schedule, costs, j);
      FailuresNeedWinners(b, schedule, costs, i);
      NewWinnerBetween(b, schedule, costs, i, j);
    }
  }

  lemma {:induction false} SubsetIsSmaller<T>(x: set<T>, y: set<T>)
    requires x <= y
    ensures |x| <= |y|
  {
    if x != {} {
      var e :| e in x;
      SubsetIsSmaller(x - {e}, y - {e});
    }
  }

  /** A failed try is at most the N-th: only the others can have won. */
  lemma {:induction false} LoserTries(b: Bucket, schedule: seq<Attempt>, costs: int -> Cost, callers: set<int>, i: nat)
    requires b.Valid() && b.cfg.safetyPadding * NANOS_PER_SECOND >= 1.0
    requires ClockAdvances(b, schedule) && FollowsAcquire(b, schedule, costs)
    requires forall caller :: WithinCapacity(b.cfg, costs(caller))
    requires forall k :: 0 <= k < |schedule| ==> schedule[k].caller in callers
    requires i < |schedule| && !Wins(b, schedule, costs, i)
    ensures Tries(schedule, schedule[i].caller, i + 1) <= |callers|
  {
    var caller := schedule[i].caller;
    FailuresNeedWinners(b, schedule, costs, i);
    assert LastTry(schedule, caller, i + 1) == i;
    NotYetAWinner(b, schedule, costs, caller, i + 1);
    assert Winners(b, schedule, costs, i) <= Winners(b, schedule, costs, i + 1);
    SubsetIsSmaller(Winners(b, schedule, costs, i), callers - {caller});
  }

  /** N callers, each with a cost within capacity, interleaved in any way by a
      clock that does not go backwards: nobody needs more than N + 1 tries. */
  lemma {:induction false} BoundedTries(
    b: Bucket, schedule: seq<Attempt>, costs: int -> Cost, callers: set<int>, caller: int)
    requires b.Valid() && b.cfg.safetyPadding * NANOS_PER_SECOND >= 1.0
    requires ClockAdvances(b, schedule) && FollowsAcquire(b, schedule, costs)
    requires forall c :: WithinCapacity(b.cfg, costs(c))
    requires forall k :: 0 <= k < |schedule| ==> schedule[k].caller in callers
    ensures |set k | 0 <= k < |schedule| && schedule[k].caller == caller| <= |callers| + 1
  {
    TriesAre(schedule, caller, |schedule|);
    var j := LastTry(schedule, caller, |schedule|);
    TriesSinceLast(schedule, caller, |schedule|);
    if j >= 0 {
      if Wins(b, schedule, costs, j) {
        var i := LastTry(schedule, caller, j);
        TriesSinceLast(schedule, caller, j);
        if i >= 0 {
          assert ReadyToTry(b, schedule, costs, j);
          LoserTries(b, schedule, costs, callers, i);
        }
      } else {
        LoserTries(b, schedule, costs, callers, j);
      }
    }
  }

  /** Callers 1, 2, ... arrive one by one, each just before caller 0 tries again. */
  function Duels(n: nat): (schedule: seq<Attempt>)
    ensures |schedule| == 2 * n
    ensures forall j :: 0 <= j < 2 * n ==>
              schedule[j] == Attempt(if j % 2 == 1 && (j + 1) / 2 < n then (j + 1) / 2 else 0,
                                     3.0 * ((j + 1) / 2) as real)
  {
    seq(2 * n, j requires 0 <= j < 2 * n =>
      Attempt(if j % 2 == 1 && (j + 1) / 2 < n then (j + 1) / 2 else 0, 3.0 * ((j + 1) / 2) as real))
  }

  const CONTESTED := Bucket(Config(1.0, 1.0, 1.0, 1.0, 1.0), 0.0, 1.0, 0.0)

  /** In these duels the newcomer wins, and caller 0 finds the bucket empty. */
  lemma {:induction false} NewcomersWin(n: nat, costs: int -> Cost, j: nat)
    requires j <= 2 * n && forall caller :: costs(caller) == Cost(1.0, 0.0)
    ensures BeforeTry(CONTESTED, Duels(n), costs, j) == CONTESTED.(lastRefill := 3.0 * (j / 2) as real)
    ensures j < 2 * n ==> (Wins(CONTESTED, Duels(n), costs, j) <==> j % 2 == 1)
  {
    if j > 0 {
      NewcomersWin(n, costs, j - 1);
      BeforeNext(CONTESTED, OpsOf(Duels(n), costs), j - 1);
    }
  }

  lemma {:induction false} DuelsFollowAcquire(n: nat, costs: int -> Cost, j: nat)
    requires j < 2 * n && forall caller :: costs(caller) == Cost(1.0, 0.0)
    ensures ReadyToTry(CONTESTED, Duels(n), costs, j)
  {
    var i := LastTry(Duels(n), Duels(n)[j].caller, j);
    if i >= 0 {
      assert i % 2 == 0 && i < j && (j + 1) / 2 == (i + 1) / 2 + 1;
      NewcomersWin(n, costs, i);
      var r := Refill(BeforeTry(CONTESTED, Duels(n), costs, i), Duels(n)[i].now);
      assert Shortage(r, costs(0), Read) == 1.0 && Shortage(r, costs(0), Write) == 0.0;
      assert WaitNanos(r, costs(0)) == 2000000000;
    }
  }

  /** The bound is reached: for every number of callers there is a bucket and a
      schedule in which one of them needs N + 1 tries. */
  lemma {:induction false} BoundIsReached(n: nat)
    returns (b: Bucket, schedule: seq<Attempt>, costs: int -> Cost, callers: set<int>)
    requires n > 0
    ensures b.Valid() && b.cfg.safetyPadding * NANOS_PER_SECOND >= 1.0
    ensures ClockAdvances(b, schedule) && FollowsAcquire(b, schedule, costs)
    ensures forall c :: WithinCapacity(b.cfg, costs(c))
    ensures forall k :: 0 <= k < |schedule| ==> schedule[k].caller in callers
    ensures |callers| == n && |set k | 0 <= k < |schedule| && schedule[k].caller == 0| == n + 1
    ensures schedule != [] && Wins(b, schedule, costs, |schedule| - 1) && schedule[|schedule| - 1].caller == 0
  {
    hide ReadyToTry, Wins, WaitNanos, Tries, LastTry;
    b, schedule, costs, callers := CONTESTED, Duels(n), _ => Cost(1.0, 0.0), Below(n);
    forall j | 0 <= j < |schedule| ensures ReadyToTry(b, schedule, costs, j) {
      DuelsFollowAcquire(n, costs, j);
    }
    DuelsOfFirst(n);
    NewcomersWin(n, costs, 2 * n - 1);
  }

  function Below(n: nat): (s: set<int>)
    ensures |s| == n && forall c :: c in s <==> 0 <= c < n
  {
    if n == 0 then {} else Below(n - 1) + {n - 1}
  }

  function EvensBelow(n: nat): (s: set<int>)
    ensures |s| == n && forall k :: k in s <==> 0 <= k < 2 * n && k % 2 == 0
  {
    if n == 0 then {} else EvensBelow(n - 1) + {2 * n - 2}
  }

  lemma {:induction false} DuelsOfFirst(n: nat)
    requires n > 0
    ensures |set k | 0 <= k < |Duels(n)| && Duels(n)[k].caller == 0| == n + 1
  {
    assert (set k | 0 <= k < |Duels(n)| && Duels(n)[k].caller == 0) == EvensBelow(n) + {2 * n - 1};
  }
}
