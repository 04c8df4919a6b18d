/** Disjoint read/write token bucket with lazy refill (ratelimit.go).

    Tokens, costs and clock readings are reals; a wait is a whole number of
    nanoseconds, truncated toward zero exactly where the program converts it. */
module TokenBucket {

  const NANOS_PER_SECOND := 1000000000.0

  /** The two pools of a bucket; a request normally draws from one of them. */
  datatype Side = Read | Write

  datatype Config = Config(
    readRate: real,
    writeRate: real,
    readCapacity: real,
    writeCapacity: real,
    safetyPadding: real)
  {
    /** What the constructor demands; it panics otherwise. */
    predicate Valid() {
      readRate > 0.0 && writeRate > 0.0
    }

    function Rate(side: Side): real {
      if side.Read? then readRate else writeRate
    }

    /** A capacity that is not positive means "same as the rate". */
    function Cap(side: Side): real {
      if side.Read?
      then if readCapacity > 0.0 then readCapacity else readRate
      else if writeCapacity > 0.0 then writeCapacity else writeRate
    }
  }

  datatype Cost = Cost(read: real, write: real)
  {
    function Of(side: Side): real {
      if side.Read? then read else write
    }
  }

  /** What is actually taken from a pool: costs that are not positive are free. */
  function Debit(cost: Cost, side: Side): real {
    if cost.Of(side) > 0.0 then cost.Of(side) else 0.0
  }

  datatype Bucket = Bucket(cfg: Config, read: real, write: real, lastRefill: real)
  {
    function Tokens(side: Side): real {
      if side.Read? then read else write
    }

    /** Tokens never leave the range between empty and full. */
    ghost predicate Valid() {
      && cfg.Valid()
      && 0.0 <= read <= cfg.Cap(Read)
      && 0.0 <= write <= cfg.Cap(Write)
    }
  }

  function Full(cfg: Config, now: real): Bucket {
    Bucket(cfg, cfg.Cap(Read), cfg.Cap(Write), now)
  }

  function Min(x: real, y: real): real {
    if x > y then y else x
  }

  /** Tokens a pool produces in `elapsed` seconds. */
  function Produced(rate: real, elapsed: real): real {
    rate * elapsed
  }

  lemma {:induction false} ProducedIsNotNegative(rate: real, elapsed: real)
    requires rate >= 0.0 && elapsed >= 0.0
    ensures Produced(rate, elapsed) >= 0.0
  {
  }

  lemma {:induction false} ProducedAdds(rate: real, x: real, y: real)
    ensures Produced(rate, x + y) == Produced(rate, x) + Produced(rate, y)
  {
  }

  function Refill(b: Bucket, now: real): Bucket {
    var elapsed := now - b.lastRefill;
    if elapsed <= 0.0 then b
    else Bucket(b.cfg,
                Min(b.read + Produced(b.cfg.readRate, elapsed), b.cfg.Cap(Read)),
                Min(b.write + Produced(b.cfg.writeRate, elapsed), b.cfg.Cap(Write)),
                now)
  }

  predicate CanProceed(b: Bucket, cost: Cost) {
    && (cost.read > 0.0 ==> b.read >= cost.read)
    && (cost.write > 0.0 ==> b.write >= cost.write)
  }

  function Consume(b: Bucket, cost: Cost): Bucket {
    b.(read := b.read - Debit(cost, Read), write := b.write - Debit(cost, Write))
  }

  /** Conversion of a float number of nanoseconds to an integer duration. */
  function TowardZero(x: real): int {
    if x >= 0.0 then x.Floor else -((-x).Floor)
  }

  /** Seconds until the pool holds its cost; zero when it already does. */
  function Shortage(b: Bucket, cost: Cost, side: Side): real
    requires b.cfg.Valid()
  {
    if cost.Of(side) > 0.0 && b.Tokens(side) < cost.Of(side)
    then (cost.Of(side) - b.Tokens(side)) / b.cfg.Rate(side)
    else 0.0
  }

  function Max(x: real, y: real): real {
    if y > x then y else x
  }

  function WaitNanos(b: Bucket, cost: Cost): int
    requires b.cfg.Valid()
  {
    TowardZero((Max(Max(0.0, Shortage(b, cost, Read)), Shortage(b, cost, Write)) + b.cfg.safetyPadding)
               * NANOS_PER_SECOND)
  }

  // ---------------------------------------------------------------------
  // Operations and runs
  // ---------------------------------------------------------------------

  /** One call on the bucket, with the clock reading it happens to take. */
  datatype Op =
    | TryAcquire(now: real, cost: Cost)
    | GetWaitTime(now: real, cost: Cost)
    | Status(now: real)

  /** What a call can tell its caller: the token counts it works with (those
      right after its refill), whether tokens were granted, and the wait. */
  datatype Outcome = Outcome(read: real, write: real, granted: bool, wait: int)

  predicate Grants(b: Bucket, op: Op) {
    op.TryAcquire? && CanProceed(Refill(b, op.now), op.cost)
  }

  function Step(b: Bucket, op: Op): Bucket {
    if Grants(b, op) then Consume(Refill(b, op.now), op.cost) else Refill(b, op.now)
  }

  function Observe(b: Bucket, op: Op): Outcome
    requires b.cfg.Valid()
  {
    var r := Refill(b, op.now);
    Outcome(r.read, r.write, Grants(b, op),
            if op.Status? || CanProceed(r, op.cost) then 0 else WaitNanos(r, op.cost))
  }

  /** The bucket after a whole run. */
  function After(b: Bucket, ops: seq<Op>): Bucket
    decreases |ops|
  {
    if ops == [] then b else After(Step(b, ops[0]), ops[1..])
  }

  function Outcomes(b: Bucket, ops: seq<Op>): (outs: seq<Outcome>)
    requires b.cfg.Valid()
    ensures |outs| == |ops|
    decreases |ops|
  {
    if ops == [] then [] else [Observe(b, ops[0])] + Outcomes(Step(b, ops[0]), ops[1..])
  }

  /** Total cost granted from one pool during a run. */
  function Spent(b: Bucket, ops: seq<Op>, side: Side): real
    decreases |ops|
  {
    if ops == [] then 0.0
    else (if Grants(b, ops[0]) then Debit(ops[0].cost, side) else 0.0)
         + Spent(Step(b, ops[0]), ops[1..], side)
  }

  /** Tokens a refill produced but the capacity threw away, over a run. */
  function Spilled(b: Bucket, ops: seq<Op>, side: Side): real
    decreases |ops|
  {
    if ops == [] then 0.0
    else var r := Refill(b, ops[0].now);
         b.Tokens(side) + Produced(b.cfg.Rate(side), r.lastRefill - b.lastRefill) - r.Tokens(side)
         + Spilled(Step(b, ops[0]), ops[1..], side)
  }

  /** Refilling, pool by pool: the time since the last refill at the pool's rate, up
      to its capacity, which is the configured one if that is positive and the rate
      otherwise. A reading that is not later changes nothing. */
  lemma {:induction false} RefillMeaning(b: Bucket, now: real)
    ensures forall rate: real, elapsed: real :: Produced(rate, elapsed) == rate * elapsed
    ensures var r, cfg, elapsed := Refill(b, now), b.cfg, now - b.lastRefill;
            var readCap := if cfg.readCapacity > 0.0 then cfg.readCapacity else cfg.readRate;
            var writeCap := if cfg.writeCapacity > 0.0 then cfg.writeCapacity else cfg.writeRate;
            var read, write := b.read + Produced(cfg.readRate, elapsed), b.write + Produced(cfg.writeRate, elapsed);
      && Full(cfg, now) == Bucket(cfg, readCap, writeCap, now)
      && r == if elapsed <= 0.0 then b
              else Bucket(cfg, if read > readCap then readCap else read,
                          if write > writeCap then writeCap else write, now)
  {
  }

  /** What each call tells and takes, from the refilled bucket: an acquire succeeds if
      every pool it draws on holds its cost, and takes it from there; an estimate and
      a status take nothing; the estimate is zero if an acquire would succeed and
      otherwise the longest shortage plus the padding, cut to whole nanoseconds. */
  lemma {:induction false} CallMeaning(b: Bucket, now: real, cost: Cost)
    requires b.cfg.Valid()
    ensures Refill(b, now).cfg == b.cfg
    ensures var r, own := Refill(b, now), TryAcquire(now, cost);
            var enough := (cost.read <= 0.0 || r.read >= cost.read) && (cost.write <= 0.0 || r.write >= cost.write);
            var short, wait := Observe(b, own), Observe(b, GetWaitTime(now, cost)).wait;
            var read := if cost.read > 0.0 && r.read < cost.read
                        then (cost.read - r.read) / b.cfg.readRate else 0.0;
            var write := if cost.write > 0.0 && r.write < cost.write
                         then (cost.write - r.write) / b.cfg.writeRate else 0.0;
            var longest := if write > read then write else read;
      && (Grants(b, own) <==> enough) && short.granted == enough && short.wait == wait
      && Step(b, own) == (if !enough then r
                          else Bucket(b.cfg, if cost.read > 0.0 then r.read - cost.read else r.read,
                                      if cost.write > 0.0 then r.write - cost.write else r.write, r.lastRefill))
      && Step(b, GetWaitTime(now, cost)) == r && Step(b, Status(now)) == r
      && Observe(b, Status(now)) == Outcome(r.read, r.write, false, 0)
      && (enough ==> wait == 0)
      && (!enough && longest + b.cfg.safetyPadding >= 0.0 ==>
            wait as real <= (longest + b.cfg.safetyPadding) * 1000000000.0 < wait as real + 1.0)
  {
    var r := Refill(b, now);
    if cost.read > 0.0 && r.read < cost.read {
      QuotientIsPositive(cost.read - r.read, b.cfg.readRate);
    }
    if cost.write > 0.0 && r.write < cost.write {
      QuotientIsPositive(cost.write - r.write, b.cfg.writeRate);
    }
  }

  lemma {:induction false} QuotientIsPositive(x: real, y: real)
    requires x > 0.0 && y > 0.0
    ensures x / y > 0.0
  {
  }

  /** A run goes on call by call; it spends the positive part of the cost of each
      acquire that is granted. */
  lemma {:induction false} RunMeaning(b: Bucket, ops: seq<Op>, op: Op, side: Side)
    requires b.cfg.Valid()
    ensures After(b, []) == b && Outcomes(b, []) == [] && Spent(b, [], side) == 0.0
    ensures var c := After(b, ops);
            var cost := if op.Status? then 0.0 else if side.Read? then op.cost.read else op.cost.write;
      && c.cfg == b.cfg
      && After(b, ops + [op]) == Step(c, op)
      && Outcomes(b, ops + [op]) == Outcomes(b, ops) + [Observe(c, op)]
      && Spent(b, ops + [op], side)
         == Spent(b, ops, side) + if Observe(c, op).granted && cost > 0.0 then cost else 0.0
    decreases |ops|
  {
    if ops == [] {
      assert ops + [op] == [op] && [op][1..] == [];
    } else {
      assert (ops + [op])[1..] == ops[1..] + [op];
      RunMeaning(Step(b, ops[0]), ops[1..], op, side);
    }
  }

  lemma {:induction false} RefillKeepsValid(b: Bucket, now: real)
    requires b.Valid()
    ensures Refill(b, now).Valid() && Refill(b, now).cfg == b.cfg
    ensures Refill(b, now).lastRefill == Max(b.lastRefill, now)
  {
    if now > b.lastRefill {
      ProducedIsNotNegative(b.cfg.readRate, now - b.lastRefill);
      ProducedIsNotNegative(b.cfg.writeRate, now - b.lastRefill);
    }
  }

  lemma {:induction false} StepKeepsValid(b: Bucket, op: Op)
    requires b.Valid()
    ensures Step(b, op).Valid() && Step(b, op).cfg == b.cfg
    ensures Step(b, op).lastRefill == Refill(b, op.now).lastRefill == Max(b.lastRefill, op.now)
  {
    RefillKeepsValid(b, op.now);
  }

  /** Conservation: what a pool held plus what time produced is exactly what it
      still holds, what was granted and what overflowed; overflow is never
      negative and no pool ever leaves its range. The clock readings in `ops`
      are arbitrary, so they may stall or go backwards. */
  lemma {:induction false} Conservation(b: Bucket, ops: seq<Op>, side: Side)
    requires b.Valid()
    ensures After(b, ops).Valid() && After(b, ops).cfg == b.cfg
    ensures After(b, ops).lastRefill >= b.lastRefill
    ensures b.Tokens(side) + Produced(b.cfg.Rate(side), After(b, ops).lastRefill - b.lastRefill)
         == After(b, ops).Tokens(side) + Spent(b, ops, side) + Spilled(b, ops, side)
    ensures Spilled(b, ops, side) >= 0.0
    decreases |ops|
  {
    if ops != [] {
      var c := Step(b, ops[0]);
      StepKeepsValid(b, ops[0]);
      Conservation(c, ops[1..], side);
      ProducedAdds(b.cfg.Rate(side), c.lastRefill - b.lastRefill, After(b, ops).lastRefill - c.lastRefill);
    }
  }

  /** Window bound: between any two points of any run from a fresh bucket, the
      cost granted from a pool is at most its capacity plus rate times the
      advance of `lastRefill`; the pool stays within its range at both. */
  lemma {:induction false} WindowBound(cfg: Config, start: real, before: seq<Op>, during: seq<Op>, side: Side)
    requires cfg.Valid()
    ensures
      var b1 := After(Full(cfg, start), before);
      var b2 := After(b1, during);
      && b1.Valid() && b2.Valid()
      && Spent(b1, during, side) <= cfg.Cap(side) + Produced(cfg.Rate(side), b2.lastRefill - b1.lastRefill)
  {
    var b0 := Full(cfg, start);
    Conservation(b0, before, side);
    Conservation(After(b0, before), during, side);
  }

  // ---------------------------------------------------------------------
  // Observation neutrality
  // ---------------------------------------------------------------------

  predicate Monotone(ops: seq<Op>) {
    forall i, j :: 0 <= i < j < |ops| ==> ops[i].now <= ops[j].now
  }

  /** Refilling at an earlier instant first makes no difference: refilling
      lazily is the same as refilling at any additional moments. */
  lemma {:induction false} RefillAbsorbs(b: Bucket, s: real, t: real)
    requires b.Valid() && s <= t
    ensures Refill(Refill(b, s), t) == Refill(b, t)
  {
    if b.lastRefill < s < t {
      ProducedAdds(b.cfg.readRate, s - b.lastRefill, t - s);
      ProducedAdds(b.cfg.writeRate, s - b.lastRefill, t - s);
      ProducedIsNotNegative(b.cfg.readRate, t - s);
      ProducedIsNotNegative(b.cfg.writeRate, t - s);
    }
  }

  /** Only the order of the readings matters: an extra refill goes unnoticed in
      every state exactly when it is not later than the next one. */
  lemma {:induction false} RefillAbsorbsIff(cfg: Config, s: real, t: real)
    requires cfg.Valid()
    ensures (forall b: Bucket :: b.Valid() && b.cfg == cfg ==> Refill(Refill(b, s), t) == Refill(b, t)) <==> s <= t
  {
    if s <= t {
      forall b: Bucket | b.Valid() && b.cfg == cfg ensures Refill(Refill(b, s), t) == Refill(b, t) {
        RefillAbsorbs(b, s, t);
      }
    } else {
      var b := Full(cfg, t);
      assert b.Valid() && Refill(b, t) == b && Refill(b, s).lastRefill == s;
      assert Refill(Refill(b, s), t).lastRefill == s != t;
    }
  }

  /** And that shows: a status call at `s` changes, in some state, whether an
      acquire at `t` succeeds, exactly when it reads a later time. */
  lemma {:induction false} StatusUnnoticedIff(cfg: Config, s: real, t: real)
    requires cfg.Valid()
    ensures (forall b: Bucket, cost: Cost :: b.Valid() && b.cfg == cfg ==>
               (Grants(Step(b, Status(s)), TryAcquire(t, cost)) <==> Grants(b, TryAcquire(t, cost))))
        <==> s <= t
  {
    if s <= t {
      forall b: Bucket, cost: Cost | b.Valid() && b.cfg == cfg
        ensures Grants(Step(b, Status(s)), TryAcquire(t, cost)) <==> Grants(b, TryAcquire(t, cost))
      {
        RefillAbsorbs(b, s, t);
      }
    } else {
      var b := Bucket(cfg, 0.0, 0.0, t);
      var gained := Refill(b, s).read;
      assert b.Valid() && gained > 0.0 && Refill(b, t) == b;
      var cost := Cost(gained, 0.0);
      assert Refill(Refill(b, s), t) == Refill(b, s);
      assert Grants(Step(b, Status(s)), TryAcquire(t, cost)) && !Grants(b, TryAcquire(t, cost));
    }
  }

  /** The elements of `xs` whose flag is set. */
  function Keep<T>(xs: seq<T>, kept: seq<bool>): seq<T>
    requires |xs| == |kept|
  {
    if xs == [] then []
    else (if kept[0] then [xs[0]] else []) + Keep(xs[1..], kept[1..])
  }

  /** Every call left out of `kept` was one that took no tokens when it ran. */
  predicate OnlyObserversDropped(b: Bucket, ops: seq<Op>, kept: seq<bool>)
    requires |ops| == |kept|
    decreases |ops|
  {
    ops != [] ==>
      && (kept[0] || !Grants(b, ops[0]))
      && OnlyObserversDropped(Step(b, ops[0]), ops[1..], kept[1..])
  }

  /** Two buckets that no call at time `t` or later can tell apart. */
  ghost predicate SameFrom(b: Bucket, c: Bucket, t: real) {
    forall u :: u >= t ==> Refill(b, u) == Refill(c, u)
  }

  /** Observation neutrality: with a clock that does not go backwards, leaving
      out (equivalently: inserting) any number of status calls, wait estimates
      and failed acquires, anywhere, changes nothing any other call sees. */
  lemma {:induction false} ObserversAreNeutral(b: Bucket, ops: seq<Op>, kept: seq<bool>)
    requires b.Valid() && |ops| == |kept| && Monotone(ops)
    requires OnlyObserversDropped(b, ops, kept)
    ensures Outcomes(b, Keep(ops, kept)) == Keep(Outcomes(b, ops), kept)
  {
    ObserversAreNeutralFrom(b, b, ops, kept);
  }

  lemma {:induction false} ObserversAreNeutralFrom(b: Bucket, c: Bucket, ops: seq<Op>, kept: seq<bool>)
    requires b.Valid() && c.Valid() && b.cfg == c.cfg && |ops| == |kept| && Monotone(ops)
    requires ops != [] ==> SameFrom(b, c, ops[0].now)
    requires OnlyObserversDropped(b, ops, kept)
    ensures Outcomes(c, Keep(ops, kept)) == Keep(Outcomes(b, ops), kept)
    decreases |ops|
  {
    if ops != [] {
      var op, rest := ops[0], ops[1..];
      var b', c' := Step(b, op), if kept[0] then Step(c, op) else c;
      StepKeepsValid(b, op);
      StepKeepsValid(c, op);
      assert Refill(b, op.now) == Refill(c, op.now);
      if rest != [] {
        assert rest[0] == ops[1];
        if !kept[0] {
          forall u | u >= rest[0].now
            ensures Refill(b', u) == Refill(c', u)
          {
            RefillAbsorbs(b, op.now, u);
          }
        } else {
          assert b' == c';
        }
      }
      assert Monotone(rest) by {
        assert forall i :: 0 <= i < |rest| ==> rest[i] == ops[i + 1];
      }
      ObserversAreNeutralFrom(b', c', rest, kept[1..]);
      assert Keep(ops, kept) == (if kept[0] then [op] else []) + Keep(rest, kept[1..]);
      assert Outcomes(b, ops)[1..] == Outcomes(b', rest);
      if kept[0] {
        assert Keep(ops, kept)[1..] == Keep(rest, kept[1..]);
      } else {
        assert Keep(ops, kept) == Keep(rest, kept[1..]);
      }
    }
  }

  lemma {:induction false} DroppingTheFirst(b: Bucket, ops: seq<Op>, kept: seq<bool>)
    requires |ops| == 2 && b.cfg.Valid() && Step(b, ops[0]).cfg.Valid() && kept == [false, true]
    ensures Outcomes(b, Keep(ops, kept)) == [Observe(b, ops[1])]
    ensures Keep(Outcomes(b, ops), kept) == [Observe(Step(b, ops[0]), ops[1])]
    ensures OnlyObserversDropped(b, ops, kept) <==> !Grants(b, ops[0])
  {
    hide Step, Observe, Grants;
    var c := Step(b, ops[0]);
    KeepSecond(ops, kept);
    KeepSecond(Outcomes(b, ops), kept);
    assert ops[1..] == [ops[1]] && [ops[1]][1..] == [];
    assert Outcomes(c, [ops[1]]) == [Observe(c, ops[1])];
    assert kept[1..] == [true] && [true][1..] == [];
    assert OnlyObserversDropped(c, [ops[1]], [true]);
  }

  lemma {:induction false} KeepSecond<T>(xs: seq<T>, kept: seq<bool>)
    requires |xs| == 2 && kept == [false, true]
    ensures Keep(xs, kept) == [xs[1]]
  {
    assert xs[1..] == [xs[1]] && kept[1..] == [true];
    assert Keep([xs[1]], [true]) == [xs[1]] + Keep([xs[1]][1..], [true][1..]);
  }

  /** A clock that steps back breaks neutrality: one status call makes an
      acquire succeed that fails without it. */
  lemma {:induction false} ClockStepBackBreaksNeutrality() returns (b: Bucket, ops: seq<Op>, kept: seq<bool>)
    ensures b.Valid() && |ops| == |kept| && OnlyObserversDropped(b, ops, kept)
    ensures Outcomes(b, Keep(ops, kept)) != Keep(Outcomes(b, ops), kept)
  {
    var cfg := Config(1.0, 1.0, 10.0, 10.0, 0.1);
    b := Bucket(cfg, 0.0, 0.0, 0.0);
    ops := [Status(5.0), TryAcquire(1.0, Cost(3.0, 0.0))];
    kept := [false, true];
    hide Outcomes, OnlyObserversDropped, Keep;
    var c := Bucket(cfg, 5.0, 5.0, 5.0);
    assert Refill(b, 5.0) == c && Refill(c, 1.0) == c;
    assert Refill(b, 1.0).read == 1.0;
    assert Step(b, ops[0]) == c;
    DroppingTheFirst(b, ops, kept);
  }
}
