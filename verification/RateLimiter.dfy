/** The rate limiter object (ratelimit.go). Every method refines the run
    functions of TokenBucket; clock readings are parameters. */
module RateLimiter {
  import opened TokenBucket
  import opened TokenBucketProgress

  /** One pass of the Acquire loop, as the outside world decides it: is the
      context already cancelled, what does the clock say, is the context
      cancelled during the wait, and which calls do other callers make
      meanwhile. */
  datatype Round = Round(cancelled: bool, now: real, cancelledWaiting: bool, others: seq<Op>)

  datatype AcquireResult = Granted | TooCostly | Cancelled | StillWaiting

  /** What an Acquire amounts to: its result, the calls made on the bucket while
      it ran (its own and the others'), and how many of its own took tokens. */
  datatype Acquisition = Acquisition(result: AcquireResult, ops: seq<Op>, debits: nat)

  function AcquireLoop(b: Bucket, cost: Cost, rounds: seq<Round>): Acquisition
    requires b.cfg.Valid()
    decreases |rounds|
  {
    if rounds == [] then Acquisition(StillWaiting, [], 0)
    else if rounds[0].cancelled then Acquisition(Cancelled, [], 0)
    else
      var own := TryAcquire(rounds[0].now, cost);
      var granted := Grants(b, own);
      if granted || WaitNanos(Refill(b, own.now), cost) == 0 then
        Acquisition(Granted, [own], if granted then 1 else 0)
      else if rounds[0].cancelledWaiting then Acquisition(Cancelled, [own], 0)
      else
        AfterKeepsConfig(Step(b, own), rounds[0].others);
        var rest := AcquireLoop(After(Step(b, own), rounds[0].others), cost, rounds[1..]);
        Acquisition(rest.result, [own] + rounds[0].others + rest.ops, rest.debits)
  }

  function Acquire(b: Bucket, cost: Cost, rounds: seq<Round>): Acquisition
    requires b.cfg.Valid()
  {
    if !WithinCapacity(b.cfg, cost) then Acquisition(TooCostly, [], 0) else AcquireLoop(b, cost, rounds)
  }

  lemma {:induction false} AfterKeepsConfig(b: Bucket, ops: seq<Op>)
    ensures After(b, ops).cfg == b.cfg
    decreases |ops|
  {
    if ops != [] {
      AfterKeepsConfig(Step(b, ops[0]), ops[1..]);
    }
  }

  lemma {:induction false} AfterIsValid(b: Bucket, ops: seq<Op>)
    requires b.Valid()
    ensures After(b, ops).Valid() && After(b, ops).cfg == b.cfg
  {
    Conservation(b, ops, Read);
  }

  /** Acquire reports success exactly when it took tokens, and then it took them
      once, with its last call; every other outcome costs nothing. */
  lemma {:induction false} AcquireDebitsOnce(b: Bucket, cost: Cost, rounds: seq<Round>)
    requires b.Valid() && ZeroWaitMeansGranted(b.cfg)
    ensures var a := Acquire(b, cost, rounds);
      && a.debits == (if a.result.Granted? then 1 else 0)
      && (a.result.Granted? ==>
            && a.ops != [] && a.ops[|a.ops| - 1].TryAcquire? && a.ops[|a.ops| - 1].cost == cost
            && GrantedAt(b, a.ops, |a.ops| - 1))
      && (a.result.TooCostly? <==>
            || cost.read > (if b.cfg.readCapacity > 0.0 then b.cfg.readCapacity else b.cfg.readRate)
            || cost.write > (if b.cfg.writeCapacity > 0.0 then b.cfg.writeCapacity else b.cfg.writeRate))
  {
    if WithinCapacity(b.cfg, cost) {
      LoopDebitsOnce(b, cost, rounds);
    }
  }

  /** What Acquire reports is what it did: success means one debit, and nothing
      else takes tokens. */
  predicate DebitsAsReported(b: Bucket, cost: Cost, rounds: seq<Round>)
    requires b.cfg.Valid()
  {
    Acquire(b, cost, rounds).debits == if Acquire(b, cost, rounds).result.Granted? then 1 else 0
  }

  /** Acquire can be trusted, in every state, exactly when a zero wait means
      "granted", which is when the safety padding is at least one nanosecond (or
      so negative that no refused call rounds to a zero wait). */
  lemma {:induction false} AcquireDebitsIff(cfg: Config)
    requires cfg.Valid()
    ensures (forall b: Bucket, cost: Cost, rounds: seq<Round> ::
               b.Valid() && b.cfg == cfg ==> DebitsAsReported(b, cost, rounds))
        <==> ZeroWaitMeansGranted(cfg)
    ensures ZeroWaitMeansGranted(cfg) <==>
            (cfg.safetyPadding * NANOS_PER_SECOND >= 1.0
             || (LongestShortage(cfg) + cfg.safetyPadding) * NANOS_PER_SECOND <= -1.0)
  {
    ZeroWaitIff(cfg);
    if ZeroWaitMeansGranted(cfg) {
      forall b: Bucket, cost: Cost, rounds: seq<Round> | b.Valid() && b.cfg == cfg
        ensures DebitsAsReported(b, cost, rounds)
      {
        AcquireDebitsOnce(b, cost, rounds);
      }
    } else {
      var b: Bucket, cost: Cost :| b.Valid() && b.cfg == cfg && WithinCapacity(cfg, cost)
                                   && !CanProceed(b, cost) && WaitNanos(b, cost) == 0;
      var rounds := [Round(false, b.lastRefill, false, [])];
      assert Refill(b, b.lastRefill) == b;
      assert !DebitsAsReported(b, cost, rounds);
    }
  }

  /** One debit, by its last call, exactly when it reports success. */
  predicate Truthful(b: Bucket, cost: Cost, a: Acquisition) {
    && a.debits == (if a.result.Granted? then 1 else 0)
    && (a.result.Granted? ==>
          && a.ops != [] && a.ops[|a.ops| - 1].TryAcquire? && a.ops[|a.ops| - 1].cost == cost
          && GrantedAt(b, a.ops, |a.ops| - 1))
  }

  lemma {:induction false} LoopDebitsOnce(b: Bucket, cost: Cost, rounds: seq<Round>)
    requires b.Valid() && ZeroWaitMeansGranted(b.cfg) && WithinCapacity(b.cfg, cost)
    ensures Truthful(b, cost, AcquireLoop(b, cost, rounds)) && !AcquireLoop(b, cost, rounds).result.TooCostly?
    decreases |rounds|
  {
    if rounds != [] && !rounds[0].cancelled {
      var own, others := TryAcquire(rounds[0].now, cost), rounds[0].others;
      RefillKeepsValid(b, own.now);
      StepKeepsValid(b, own);
      assert Grants(b, own) || WaitNanos(Refill(b, own.now), cost) != 0;
      hide ZeroWaitMeansGranted, WaitNanos, Refill, WithinCapacity;
      if Grants(b, own) {
        assert [own][..0] == [];
      } else if !rounds[0].cancelledWaiting {
        hide Truthful;
        AfterIsValid(Step(b, own), others);
        var c := After(Step(b, own), others);
        LoopDebitsOnce(c, cost, rounds[1..]);
        LaterIsTruthful(b, cost, own, others, AcquireLoop(c, cost, rounds[1..]));
      }
    }
  }

  lemma {:induction false} LaterIsTruthful(b: Bucket, cost: Cost, own: Op, others: seq<Op>, rest: Acquisition)
    requires Truthful(After(Step(b, own), others), cost, rest)
    ensures Truthful(b, cost, Acquisition(rest.result, [own] + others + rest.ops, rest.debits))
  {
    if rest.result.Granted? {
      GrantedLast(b, own, others, rest.ops);
    }
  }

  /** The last of the later calls, seen from the start. */
  lemma {:induction false} GrantedLast(b: Bucket, own: Op, others: seq<Op>, rest: seq<Op>)
    requires rest != []
    ensures var ops := [own] + others + rest;
      && ops[|ops| - 1] == rest[|rest| - 1]
      && (GrantedAt(b, ops, |ops| - 1) <==> GrantedAt(After(Step(b, own), others), rest, |rest| - 1))
  {
    hide Step, Grants;
    var ops, c := [own] + others + rest, After(Step(b, own), others);
    var n, front := |ops| - 1, rest[..|rest| - 1];
    assert ops[..n] == ([own] + others) + front;
    AfterAppend(b, [own] + others, front);
    assert ([own] + others)[1..] == others;
    assert Before(b, ops, n) == Before(c, rest, |rest| - 1);
  }

  lemma {:induction false} AfterAppend(b: Bucket, xs: seq<Op>, ys: seq<Op>)
    ensures After(b, xs + ys) == After(After(b, xs), ys)
    decreases |xs|
  {
    if xs == [] {
      assert xs + ys == ys;
    } else {
      assert (xs + ys)[1..] == xs[1..] + ys;
      AfterAppend(Step(b, xs[0]), xs[1..], ys);
    }
  }

  /** One round of the loop: nothing if the context is cancelled; otherwise its own
      try, then, if it goes on, the others. */
  lemma {:induction false} NextRound(b: Bucket, cost: Cost, rounds: seq<Round>)
    requires b.cfg.Valid()
    ensures rounds == [] ==> AcquireLoop(b, cost, rounds) == Acquisition(StillWaiting, [], 0)
    ensures rounds != [] && rounds[0].cancelled ==> AcquireLoop(b, cost, rounds) == Acquisition(Cancelled, [], 0)
    ensures rounds != [] && !rounds[0].cancelled ==>
      var a, c := AcquireLoop(b, cost, rounds), Step(b, TryAcquire(rounds[0].now, cost));
      c.cfg == b.cfg
      && if Grants(b, TryAcquire(rounds[0].now, cost)) || WaitNanos(Refill(b, rounds[0].now), cost) == 0
         then a.result.Granted? && After(b, a.ops) == c
         else if rounds[0].cancelledWaiting then a.result.Cancelled? && After(b, a.ops) == c
         else var d := After(c, rounds[0].others);
              d.cfg == b.cfg
              && a.result == AcquireLoop(d, cost, rounds[1..]).result
              && After(b, a.ops) == After(d, AcquireLoop(d, cost, rounds[1..]).ops)
  {
    if rounds == [] || rounds[0].cancelled {
      return;
    }
    var own, others := TryAcquire(rounds[0].now, cost), rounds[0].others;
    var c := Step(b, own);
    assert [own][1..] == [] && After(b, [own]) == After(c, []);
    if !Grants(b, own) && WaitNanos(Refill(b, own.now), cost) != 0 && !rounds[0].cancelledWaiting {
      AfterKeepsConfig(c, others);
      var rest := AcquireLoop(After(c, others), cost, rounds[1..]).ops;
      assert ([own] + others + rest)[1..] == others + rest;
      AfterAppend(c, others, rest);
    }
  }

  /** Without safety padding Acquire can report success having taken nothing. */
  lemma {:induction false} UnpaddedAcquireCanLie() returns (b: Bucket, cost: Cost, rounds: seq<Round>)
    ensures b.Valid() && b.cfg.safetyPadding == 0.0 && WithinCapacity(b.cfg, cost)
    ensures Acquire(b, cost, rounds).result.Granted? && Acquire(b, cost, rounds).debits == 0
  {
    b := Bucket(Config(2000000000.0, 1.0, 0.0, 0.0, 0.0), 0.0, 0.0, 7.0);
    cost := Cost(1.0, 0.0);
    rounds := [Round(false, 7.0, false, [])];
    assert Shortage(b, cost, Read) == 1.0 / 2000000000.0;
    assert (0.0 + 1.0 / 2000000000.0) * NANOS_PER_SECOND == 0.5;
    assert WaitNanos(b, cost) == 0;
  }

  class ReadWriteTokenBucket {
    const cfg: Config
    var readTokens: real
    var writeTokens: real
    var lastRefill: real

    ghost function State(): Bucket
      reads this
    {
      Bucket(cfg, readTokens, writeTokens, lastRefill)
    }

    constructor (cfg: Config, now: real)
      requires cfg.Valid()
      ensures State() == Full(cfg, now) && State().Valid()
      ensures readTokens == if cfg.readCapacity > 0.0 then cfg.readCapacity else cfg.readRate
      ensures writeTokens == if cfg.writeCapacity > 0.0 then cfg.writeCapacity else cfg.writeRate
    {
      this.cfg := cfg;
      readTokens := cfg.Cap(Read);
      writeTokens := cfg.Cap(Write);
      lastRefill := now;
    }

    method RefillTo(now: real)
      modifies this`readTokens, this`writeTokens, this`lastRefill
      ensures State() == Refill(old(State()), now)
    {
      var elapsed := now - lastRefill;
      if elapsed <= 0.0 {
        return;
      }
      lastRefill := now;

      readTokens := readTokens + Produced(cfg.readRate, elapsed);
      if readTokens > cfg.Cap(Read) {
        readTokens := cfg.Cap(Read);
      }
      writeTokens := writeTokens + Produced(cfg.writeRate, elapsed);
      if writeTokens > cfg.Cap(Write) {
        writeTokens := cfg.Cap(Write);
      }
    }

    method Take(cost: Cost)
      modifies this`readTokens, this`writeTokens
      ensures State() == Consume(old(State()), cost)
    {
      if cost.read > 0.0 {
        readTokens := readTokens - cost.read;
      }
      if cost.write > 0.0 {
        writeTokens := writeTokens - cost.write;
      }
    }

    method CalculateWaitTime(cost: Cost) returns (wait: int)
      requires cfg.Valid()
      ensures wait == WaitNanos(State(), cost)
    {
      var maxWait := 0.0;
      if cost.read > 0.0 && readTokens < cost.read {
        var deficit := cost.read - readTokens;
        var w := deficit / cfg.readRate;
        if w > maxWait {
          maxWait := w;
        }
      }
      if cost.write > 0.0 && writeTokens < cost.write {
        var deficit := cost.write - writeTokens;
        var w := deficit / cfg.writeRate;
        if w > maxWait {
          maxWait := w;
        }
      }
      ghost var b := State();
      assert Max(0.0, Shortage(b, cost, Read)) >= 0.0;
      assert maxWait == Max(Max(0.0, Shortage(b, cost, Read)), Shortage(b, cost, Write));
      maxWait := maxWait + cfg.safetyPadding;
      wait := TowardZero(maxWait * NANOS_PER_SECOND);
    }

    method Try(now: real, cost: Cost) returns (ok: bool)
      modifies this`readTokens, this`writeTokens, this`lastRefill
      ensures State() == Step(old(State()), TryAcquire(now, cost))
      ensures ok == Grants(old(State()), TryAcquire(now, cost))
    {
      RefillTo(now);
      if !((cost.read > 0.0 ==> readTokens >= cost.read) && (cost.write > 0.0 ==> writeTokens >= cost.write)) {
        return false;
      }
      Take(cost);
      return true;
    }

    method TryOrWait(now: real, cost: Cost) returns (wait: int)
      requires cfg.Valid()
      modifies this`readTokens, this`writeTokens, this`lastRefill
      ensures State() == Step(old(State()), TryAcquire(now, cost))
      ensures wait == if Grants(old(State()), TryAcquire(now, cost)) then 0
                      else WaitNanos(Refill(old(State()), now), cost)
    {
      RefillTo(now);
      if (cost.read > 0.0 ==> readTokens >= cost.read) && (cost.write > 0.0 ==> writeTokens >= cost.write) {
        Take(cost);
        return 0;
      }
      wait := CalculateWaitTime(cost);
    }

    method EstimateWait(now: real, cost: Cost) returns (wait: int)
      requires cfg.Valid()
      modifies this`readTokens, this`writeTokens, this`lastRefill
      ensures State() == Step(old(State()), GetWaitTime(now, cost))
      ensures wait == Observe(old(State()), GetWaitTime(now, cost)).wait
    {
      RefillTo(now);
      if (cost.read > 0.0 ==> readTokens >= cost.read) && (cost.write > 0.0 ==> writeTokens >= cost.write) {
        return 0;
      }
      wait := CalculateWaitTime(cost);
    }

    method Snapshot(now: real) returns (read: real, write: real)
      requires cfg.Valid()
      modifies this`readTokens, this`writeTokens, this`lastRefill
      ensures State() == Step(old(State()), Status(now))
      ensures var seen := Observe(old(State()), Status(now)); read == seen.read && write == seen.write
      ensures read == readTokens && write == writeTokens
    {
      RefillTo(now);
      return readTokens, writeTokens;
    }

    /** The calls other callers make while this one sleeps. */
    method Perform(ops: seq<Op>)
      requires cfg.Valid()
      modifies this`readTokens, this`writeTokens, this`lastRefill
      ensures State() == After(old(State()), ops)
    {
      for i := 0 to |ops|
        invariant After(State(), ops[i..]) == After(old(State()), ops)
      {
        assert ops[i..][0] == ops[i] && ops[i..][1..] == ops[i + 1..];
        match ops[i] {
          case TryAcquire(now, cost) => var ok := Try(now, cost);
          case GetWaitTime(now, cost) => var wait := EstimateWait(now, cost);
          case Status(now) => var read, write := Snapshot(now);
        }
      }
    }

    /** Blocks, round by round, until granted, rejected or cancelled. The rounds
        are what the outside world does; when they run out the caller is still
        asleep. */
    method AcquireTokens(cost: Cost, rounds: seq<Round>) returns (result: AcquireResult)
      requires cfg.Valid()
      modifies this`readTokens, this`writeTokens, this`lastRefill
      ensures var a := Acquire(old(State()), cost, rounds);
              result == a.result && State() == After(old(State()), a.ops)
    {
      if cost.read > cfg.Cap(Read) || cost.write > cfg.Cap(Write) {
        return TooCostly;
      }
      ghost var start := State();
      for i := 0 to |rounds|
        invariant var rest := AcquireLoop(State(), cost, rounds[i..]);
                  && rest.result == AcquireLoop(start, cost, rounds).result
                  && After(State(), rest.ops) == After(start, AcquireLoop(start, cost, rounds).ops)
      {
        assert rounds[i..][0] == rounds[i] && rounds[i..][1..] == rounds[i + 1..];
        if rounds[i].cancelled {
          return Cancelled;
        }
        NextRound(State(), cost, rounds[i..]);
        var wait := TryOrWait(rounds[i].now, cost);
        if wait == 0 {
          return Granted;
        }
        if rounds[i].cancelledWaiting {
          return Cancelled;
        }
        Perform(rounds[i].others);
      }
      return StillWaiting;
    }
  }
}
