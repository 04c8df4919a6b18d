/** The endpoint-costs table (client.go, ConfigureRateLimits, lookupCost and
    resolveCosts): which entry prices a request, and for how many units. */
module CostTable {
  import opened Basics
  import opened EndpointCost
  import opened StableSort
  import opened TokenBucket

  /** One entry as the API returns it. */
  datatype Entry = Entry(verb: string, path: string, cost: real)

  function RoutesOf(entries: seq<Entry>): (routes: seq<CostRoute>)
    ensures |routes| == |entries|
    ensures forall i :: 0 <= i < |entries| ==>
              routes[i] == RouteOf(entries[i].verb, entries[i].path, entries[i].cost)
  {
    if entries == [] then []
    else [RouteOf(entries[0].verb, entries[0].path, entries[0].cost)] + RoutesOf(entries[1..])
  }

  predicate MoreSpecific(a: CostRoute, b: CostRoute) {
    a.literals > b.literals
  }

  /** Most specific first; ties stay in API order. */
  function Table(routes: seq<CostRoute>): seq<CostRoute> {
    Sort(routes, MoreSpecific)
  }

  function FirstMatch(table: seq<CostRoute>, verb: string, path: string): (r: Option<CostRoute>)
    ensures r.None? <==> forall i :: 0 <= i < |table| ==> !Matches(table[i], verb, path)
    ensures r.Some? ==> r.value in table && Matches(r.value, verb, path)
  {
    if table == [] then None
    else if Matches(table[0], verb, path) then Some(table[0])
    else FirstMatch(table[1..], verb, path)
  }

  method LookupCost(table: seq<CostRoute>, verb: string, path: string) returns (cost: Option<real>)
    ensures cost == match FirstMatch(table, verb, path) case None => None case Some(r) => Some(r.cost)
  {
    for i := 0 to |table|
      invariant FirstMatch(table, verb, path) == FirstMatch(table[i..], verb, path)
    {
      if table[i].verb == ToUpper(verb) {
        var matched := SegmentsMatch(table[i].segments, SplitPath(path));
        if matched {
          return Some(table[i].cost);
        }
      }
    }
    return None;
  }

  /** The entry that should price a request: it matches, and every other
      matching entry has fewer literals, or as many and comes later. */
  ghost predicate IsMostSpecific(routes: seq<CostRoute>, i: nat, verb: string, path: string) {
    && i < |routes| && Matches(routes[i], verb, path)
    && forall j :: 0 <= j < |routes| && Matches(routes[j], verb, path) ==>
         routes[j].literals < routes[i].literals || (routes[j].literals == routes[i].literals && i <= j)
  }

  lemma {:induction false} InsertMatch(x: CostRoute, ys: seq<CostRoute>, verb: string, path: string)
    requires Sorted(ys, MoreSpecific)
    ensures FirstMatch(Insert(x, ys, MoreSpecific), verb, path)
         == var r := FirstMatch(ys, verb, path);
            if Matches(x, verb, path) && (r.None? || r.value.literals <= x.literals) then Some(x) else r
  {
    if ys != [] {
      if MoreSpecific(ys[0], x) {
        InsertMatch(x, ys[1..], verb, path);
        assert Insert(x, ys, MoreSpecific)[1..] == Insert(x, ys[1..], MoreSpecific);
      } else {
        assert Insert(x, ys, MoreSpecific)[1..] == ys;
        var r := FirstMatch(ys, verb, path);
        if r.Some? {
          var j :| 0 <= j < |ys| && ys[j] == r.value;
          assert j == 0 || !MoreSpecific(ys[j], ys[0]);
        }
      }
    }
  }

  lemma {:induction false} MoreSpecificIsStrictWeak()
    ensures StrictWeak(MoreSpecific)
  {
  }

  /** One more entry, listed before the others. */
  lemma {:induction false} FirstOfTable(routes: seq<CostRoute>, verb: string, path: string)
    requires routes != []
    ensures FirstMatch(Table(routes), verb, path)
         == var r := FirstMatch(Table(routes[1..]), verb, path);
            if Matches(routes[0], verb, path) && (r.None? || r.value.literals <= routes[0].literals)
            then Some(routes[0]) else r
  {
    hide Matches, FirstMatch;
    MoreSpecificIsStrictWeak();
    SortIsStable(routes[1..], MoreSpecific);
    InsertMatch(routes[0], Table(routes[1..]), verb, path);
  }

  /** Most-specific lookup: the sorted table yields a route exactly when some
      entry matches, and then the most specific, earliest one. */
  lemma {:induction false} LookupIsMostSpecific(routes: seq<CostRoute>, verb: string, path: string)
    ensures FirstMatch(Table(routes), verb, path).Some?
        <==> exists i :: 0 <= i < |routes| && Matches(routes[i], verb, path)
    ensures forall i: nat :: IsMostSpecific(routes, i, verb, path) ==>
              FirstMatch(Table(routes), verb, path) == Some(routes[i])
    ensures FirstMatch(Table(routes), verb, path).Some? ==> exists i: nat :: IsMostSpecific(routes, i, verb, path)
  {
    hide Matches, FirstMatch;
    if routes != [] {
      var rest := routes[1..];
      FirstOfTable(routes, verb, path);
      hide Table;
      LookupIsMostSpecific(rest, verb, path);
      assert forall i :: 0 <= i < |rest| ==> rest[i] == routes[i + 1];
      forall i: nat | IsMostSpecific(routes, i, verb, path)
        ensures FirstMatch(Table(routes), verb, path) == Some(routes[i])
      {
        WinnerOfRest(routes, i, verb, path);
      }
      if FirstMatch(Table(routes), verb, path).Some? {
        WinnerExists(routes, verb, path);
      }
    }
  }

  lemma {:induction false} WinnerOfRest(routes: seq<CostRoute>, i: nat, verb: string, path: string)
    requires routes != [] && IsMostSpecific(routes, i, verb, path)
    requires forall k: nat :: IsMostSpecific(routes[1..], k, verb, path) ==>
               FirstMatch(Table(routes[1..]), verb, path) == Some(routes[1..][k])
    requires FirstMatch(Table(routes), verb, path)
         == var r := FirstMatch(Table(routes[1..]), verb, path);
            if Matches(routes[0], verb, path) && (r.None? || r.value.literals <= routes[0].literals)
            then Some(routes[0]) else r
    ensures FirstMatch(Table(routes), verb, path) == Some(routes[i])
  {
    var rest := routes[1..];
    if i > 0 {
      forall j | 0 <= j < |rest| && Matches(rest[j], verb, path)
        ensures rest[j].literals < rest[i - 1].literals || (rest[j].literals == rest[i - 1].literals && i - 1 <= j)
      {
        assert Matches(routes[j + 1], verb, path);
      }
      assert IsMostSpecific(rest, i - 1, verb, path);
    } else {
      var r := FirstMatch(Table(rest), verb, path);
      if r.Some? {
        MoreSpecificIsStrictWeak();
        SortIsStable(rest, MoreSpecific);
        assert r.value in multiset(Table(rest));
        assert r.value in rest;
        var j :| 0 <= j < |rest| && rest[j] == r.value;
        assert Matches(routes[j + 1], verb, path);
      }
    }
  }

  lemma {:induction false} WinnerExists(routes: seq<CostRoute>, verb: string, path: string)
    requires exists i :: 0 <= i < |routes| && Matches(routes[i], verb, path)
    ensures exists i: nat :: IsMostSpecific(routes, i, verb, path)
    decreases |routes|
  {
    var x, rest := routes[0], routes[1..];
    assert forall i :: 0 <= i < |rest| ==> rest[i] == routes[i + 1];
    if exists i :: 0 <= i < |rest| && Matches(rest[i], verb, path) {
      WinnerExists(rest, verb, path);
      var k: nat :| IsMostSpecific(rest, k, verb, path);
      var winner := if Matches(x, verb, path) && x.literals >= rest[k].literals then 0 else k + 1;
      forall j | 0 <= j < |routes| && Matches(routes[j], verb, path)
        ensures routes[j].literals < routes[winner].literals
             || (routes[j].literals == routes[winner].literals && winner <= j)
      {
        assert j > 0 ==> Matches(rest[j - 1], verb, path);
      }
      assert IsMostSpecific(routes, winner, verb, path);
    } else {
      assert forall j :: 0 < j < |routes| ==> routes[j] == rest[j - 1];
      assert IsMostSpecific(routes, 0, verb, path);
    }
  }

  // ---------------------------------------------------------------------
  // Literal routes against placeholder routes
  // ---------------------------------------------------------------------

  /** `*` stands only at the end of the pattern, if at all. */
  predicate WildcardOnlyLast(pattern: seq<string>) {
    FirstWildcard(pattern) >= |pattern| - 1
  }

  /** A pattern with a placeholder is at least as specific as some literal route
      for the same request. */
  ghost predicate CanOutrankLiteral(pattern: seq<string>) {
    exists literal: seq<string> ::
      PlaceholderFree(literal) && Describes(pattern, literal) && CountLiterals(pattern) >= |literal|
  }

  lemma {:induction false} CountBeforeWildcard(pattern: seq<string>)
    ensures FirstWildcard(pattern) == |pattern| && !PlaceholderFree(pattern) ==> CountLiterals(pattern) < |pattern|
    ensures FirstWildcard(pattern) == |pattern| - 1 ==> CountLiterals(pattern) <= FirstWildcard(pattern)
  {
    if FirstWildcard(pattern) == |pattern| - 1 {
      var front := pattern[..|pattern| - 1];
      assert pattern == front + [pattern[|pattern| - 1]];
      CountLiteralsSnoc(front, pattern[|pattern| - 1]);
    }
  }

  /** A placeholder pattern can outrank a literal route exactly when it has more
      literals than segments before its first wildcard, which takes literals
      hidden behind that wildcard. */
  lemma {:induction false} OutranksLiteralIff(pattern: seq<string>)
    requires !PlaceholderFree(pattern)
    ensures CanOutrankLiteral(pattern)
        <==> FirstWildcard(pattern) < |pattern| && CountLiterals(pattern) > FirstWildcard(pattern)
  {
    var k := FirstWildcard(pattern);
    CountBeforeWildcard(pattern);
    if k < |pattern| && CountLiterals(pattern) > k {
      var fill := seq(|pattern|, i => "x");
      var literal := Instantiate(pattern, fill, ["x"]);
      ShortestInstance(pattern, fill);
      assert IsInstance(pattern, literal);
      DescribesItsInstances(pattern, literal);
    }
  }

  lemma {:induction false} ShortestInstance(pattern: seq<string>, fill: seq<string>)
    requires |fill| == |pattern| && FirstWildcard(pattern) < |pattern|
    requires forall i :: 0 <= i < |fill| ==> fill[i] == "x"
    ensures |Instantiate(pattern, fill, ["x"])| == FirstWildcard(pattern) + 1
    ensures PlaceholderFree(Instantiate(pattern, fill, ["x"]))
  {
    if !IsTrailingWildcard(pattern[0]) {
      ShortestInstance(pattern[1..], fill[1..]);
    }
  }

  /** The pattern is literal, or outranks no literal route (see OutranksLiteralIff). */
  predicate KnowsItsPlace(pattern: seq<string>) {
    PlaceholderFree(pattern) || FirstWildcard(pattern) == |pattern| || CountLiterals(pattern) <= FirstWildcard(pattern)
  }

  /** As when `*` only ends paths. */
  lemma {:induction false} WildcardLastKnowsItsPlace(pattern: seq<string>)
    requires WildcardOnlyLast(pattern)
    ensures KnowsItsPlace(pattern)
  {
    CountBeforeWildcard(pattern);
  }

  /** If no placeholder entry can outrank a literal one, a literal entry for exactly
      this request decides its cost, in whatever order the API lists the entries. */
  lemma {:induction false} LiteralEntryWins(entries: seq<Entry>, listed: seq<Entry>, verb: string, path: string, i: nat)
    requires multiset(listed) == multiset(entries) && i < |entries|
    requires forall e :: e in entries ==> KnowsItsPlace(RouteOf(e.verb, e.path, e.cost).segments)
    requires var r := RouteOf(entries[i].verb, entries[i].path, entries[i].cost);
             Matches(r, verb, path) && PlaceholderFree(r.segments)
    ensures var found := FirstMatch(Table(RoutesOf(listed)), verb, path);
      && found.Some? && PlaceholderFree(found.value.segments) && found.value.segments == SplitPath(path)
      && exists e :: e in entries && found.value == RouteOf(e.verb, e.path, e.cost)
  {
    hide Describes, SplitPath, FullPath, ToUpper, FirstMatch, Table;
    var routes := RoutesOf(listed);
    var literal := RouteOf(entries[i].verb, entries[i].path, entries[i].cost);
    assert entries[i] in multiset(listed);
    var j :| 0 <= j < |listed| && listed[j] == entries[i];
    assert routes[j] == literal;
    LiteralDescribesItself(literal.segments, SplitPath(path));
    LookupIsMostSpecific(routes, verb, path);
    var w: nat :| IsMostSpecific(routes, w, verb, path);
    assert listed[w] in multiset(entries);
    var found := routes[w];
    assert found.literals >= literal.literals == |SplitPath(path)|;
    CountBeforeWildcard(found.segments);
    if !PlaceholderFree(found.segments) {
      OutranksLiteralIff(found.segments);
      assert false;
    }
    LiteralDescribesItself(found.segments, SplitPath(path));
  }

  lemma {:induction false} LiteralDescribesItself(pattern: seq<string>, actual: seq<string>)
    requires PlaceholderFree(pattern) && Describes(pattern, actual)
    ensures pattern == actual
  {
    LiteralsHaveNoWildcard(pattern);
    forall i | 0 <= i < |pattern| ensures pattern[i] == actual[i] {
      assert SegmentFits(pattern[i], actual[i]);
    }
  }

  lemma {:induction false} LiteralsHaveNoWildcard(pattern: seq<string>)
    requires PlaceholderFree(pattern)
    ensures FirstWildcard(pattern) == |pattern|
  {
    if pattern != [] {
      assert pattern[0] in pattern;
      LiteralsHaveNoWildcard(pattern[1..]);
    }
  }

  const PLAIN := ["trade-api", "v2", "p"]
  const STARRED := ["trade-api", "v2", "*x", "a", "b"]

  /** With a wildcard in the middle the literal entry can lose. */
  lemma {:induction false} MiddleWildcardCanWin() returns (entries: seq<Entry>, path: string)
    ensures |entries| == 2
    ensures var r := RouteOf(entries[0].verb, entries[0].path, entries[0].cost);
            Matches(r, "GET", path) && PlaceholderFree(r.segments)
    ensures var r := RouteOf(entries[1].verb, entries[1].path, entries[1].cost);
            !PlaceholderFree(r.segments) && FirstMatch(Table(RoutesOf(entries)), "GET", path) == Some(r)
  {
    entries, path := [Entry("GET", "/p", 1.0), Entry("GET", "/*x/a/b", 2.0)], "/trade-api/v2/p";
    PlainSegments();
    StarredSegments();
    hide SplitPath, FullPath, FirstMatch, Table, Describes, CountLiterals;
    CountThree(PLAIN);
    CountFour(STARRED);
    BothDescribe();
    var routes := RoutesOf(entries);
    assert routes[0].segments == PLAIN && routes[0].literals == 3;
    assert routes[1].segments == STARRED && routes[1].literals == 4;
    assert IsMostSpecific(routes, 1, "GET", path);
    LookupIsMostSpecific(routes, "GET", path);
  }

  lemma {:induction false} BothDescribe()
    ensures Describes(PLAIN, PLAIN) && Describes(STARRED, PLAIN)
  {
    assert FirstWildcard(STARRED) == 2 by {
      assert STARRED[1..][1..][0] == STARRED[2] && STARRED[1..][0] == STARRED[1];
    }
    CountThree(PLAIN);
    LiteralsHaveNoWildcard(PLAIN);
  }

  lemma {:induction false} PlainSegments()
    ensures FullPath("/p") == "/trade-api/v2/p" && SplitPath("/trade-api/v2/p") == PLAIN
  {
    assert "/trade-api/v2/p" == "/" + Join(PLAIN) by {
      assert PLAIN[1..] == ["v2", "p"] && PLAIN[1..][1..] == ["p"];
    }
    assert "/p" != "/trade-api" && "/trade-api/v2" + "/p" == "/trade-api/v2/p";
    hide Split, SplitPath, Join;
    SplitPathOf("/trade-api/v2/p", PLAIN);
  }

  lemma {:induction false} StarredSegments()
    ensures FullPath("/*x/a/b") == "/trade-api/v2/*x/a/b" && SplitPath("/trade-api/v2/*x/a/b") == STARRED
  {
    assert "/*x/a/b"[1] != "/trade-api"[1];
    assert "/trade-api/v2" + "/*x/a/b" == "/trade-api/v2/*x/a/b";
    hide Split, SplitPath, Join;
    SplitPathOf("/trade-api/v2/*x/a/b", STARRED);
  }

  lemma {:induction false} CountThree(plain: seq<string>)
    requires plain == ["trade-api", "v2", "p"]
    ensures CountLiterals(plain) == 3 && PlaceholderFree(plain)
  {
    assert forall i :: 0 <= i < 3 ==> !IsPathPlaceholder(plain[i]);
  }

  lemma {:induction false} CountFour(pattern: seq<string>)
    requires pattern == ["trade-api", "v2", "*x", "a", "b"]
    ensures CountLiterals(pattern) == 4
  {
    var tail := pattern[3..];
    assert !IsPathPlaceholder(tail[0]) && !IsPathPlaceholder(tail[1]);
    assert CountLiterals(tail) == 2;
    assert pattern[2..][1..] == tail && IsPathPlaceholder(pattern[2..][0]);
    assert CountLiterals(pattern[2..]) == 2;
    assert pattern[1..][1..] == pattern[2..] && !IsPathPlaceholder(pattern[1..][0]);
    assert CountLiterals(pattern[1..]) == 3;
    assert !IsPathPlaceholder(pattern[0]);
  }

  // ---------------------------------------------------------------------
  // Units
  // ---------------------------------------------------------------------

  function Times(x: real, n: nat): real {
    x * n as real
  }

  function Scale(cost: Cost, units: nat): Cost {
    Cost(Times(cost.read, units), Times(cost.write, units))
  }

  /** What a client knows about prices: no table yet, or a table and the cost of
      endpoints it does not list. */
  datatype Prices = Prices(table: Option<seq<CostRoute>>, defaultCost: real)

  function Units(units: int): nat {
    if units < 1 then 1 else units
  }

  function Resolve(prices: Prices, verb: string, path: string, caller: Cost, units: int): Cost {
    var n := Units(units);
    if prices.table.None? then Scale(caller, n)
    else
      var found := FirstMatch(prices.table.value, verb, path);
      if found.None? && prices.defaultCost <= 0.0 then Scale(caller, n)
      else
        var cost := Times(if found.Some? then found.value.cost else prices.defaultCost, n);
        if verb == "GET" then Cost(cost, 0.0) else Cost(0.0, cost)
  }

  /** What a request costs, from the entries as the API lists them. Every figure is
      for one unit and is multiplied by the units, at least one; a figure from the
      table goes to the read pool exactly for GET. Without a table the caller's
      figures count; with one, the most specific entry that applies, then a positive
      default, then the caller's figures. */
  lemma {:induction false} ResolveMeaning(
    entries: seq<Entry>, defaultCost: real, verb: string, path: string, caller: Cost, units: int)
    ensures forall x: real, k: nat :: Times(x, k) == x * k as real
    ensures var n := if units < 1 then 1 else units;
            var own := Cost(Times(caller.read, n), Times(caller.write, n));
            var routes, loaded := RoutesOf(entries), Prices(Some(Table(RoutesOf(entries))), defaultCost);
            var cost := Resolve(loaded, verb, path, caller, units);
      && Resolve(Prices(None, defaultCost), verb, path, caller, units) == own
      && (forall i: nat :: IsMostSpecific(routes, i, verb, path) ==>
            cost == if verb == "GET" then Cost(Times(entries[i].cost, n), 0.0)
                    else Cost(0.0, Times(entries[i].cost, n)))
      && ((forall i :: 0 <= i < |routes| ==> !Matches(routes[i], verb, path)) ==>
            cost == if defaultCost <= 0.0 then own
                    else if verb == "GET" then Cost(Times(defaultCost, n), 0.0)
                    else Cost(0.0, Times(defaultCost, n)))
  {
    forall x: real, k: nat ensures Times(x, k) == x * k as real {
    }
    hide Matches, FirstMatch, Table, IsMostSpecific, Times;
    var routes := RoutesOf(entries);
    LookupIsMostSpecific(routes, verb, path);
    forall i: nat | IsMostSpecific(routes, i, verb, path)
      ensures i < |entries| && FirstMatch(Table(routes), verb, path).Some?
              && FirstMatch(Table(routes), verb, path).value.cost == entries[i].cost
    {
      MostSpecificIsListed(entries, i, verb, path);
    }
  }

  lemma {:induction false} MostSpecificIsListed(entries: seq<Entry>, i: nat, verb: string, path: string)
    requires IsMostSpecific(RoutesOf(entries), i, verb, path)
    ensures i < |entries| && RoutesOf(entries)[i].cost == entries[i].cost
  {
  }

  lemma {:induction false} ResolveScales(prices: Prices, verb: string, path: string, caller: Cost, units: int)
    ensures Resolve(prices, verb, path, caller, units)
         == Scale(Resolve(prices, verb, path, caller, 1), if units < 1 then 1 else units)
  {
    var n := Units(units);
    OneUnit(caller.read);
    OneUnit(caller.write);
    if prices.table.Some? {
      var found := FirstMatch(prices.table.value, verb, path);
      OneUnit(if found.Some? then found.value.cost else prices.defaultCost);
    }
    assert Times(0.0, n) == 0.0;
  }

  lemma {:induction false} OneUnit(x: real)
    ensures Times(x, 1) == x
  {
  }

  /** `n` successive tries for the same cost at one clock reading. */
  function Singles(now: real, cost: Cost, n: nat): (ops: seq<Op>)
    ensures |ops| == n
  {
    if n == 0 then [] else [TryAcquire(now, cost)] + Singles(now, cost, n - 1)
  }

  predicate AllGranted(b: Bucket, ops: seq<Op>)
    decreases |ops|
  {
    ops != [] ==> Grants(b, ops[0]) && AllGranted(Step(b, ops[0]), ops[1..])
  }

  predicate Affords(tokens: real, cost: real) {
    cost > 0.0 ==> tokens >= cost
  }

  function Positive(x: real): real {
    if x > 0.0 then x else 0.0
  }

  /** One pool: paying for n units is paying for one and then for the rest. */
  lemma {:induction false} PoolStep(tokens: real, x: real, n: nat)
    requires n > 0
    ensures Affords(tokens, Times(x, n)) <==> Affords(tokens, x) && Affords(tokens - Positive(x), Times(x, n - 1))
    ensures Positive(Times(x, n)) == Positive(x) + Positive(Times(x, n - 1))
  {
    TimesStep(x, n);
    hide Times;
  }

  lemma {:induction false} TimesStep(x: real, n: nat)
    requires n > 0
    ensures Times(x, n) == x + Times(x, n - 1)
    ensures x > 0.0 ==> Times(x, n - 1) >= 0.0
    ensures x <= 0.0 ==> Times(x, n - 1) <= 0.0
  {
  }

  lemma {:induction false} BatchStep(b: Bucket, cost: Cost, n: nat)
    requires n > 0
    ensures CanProceed(b, Scale(cost, n))
        <==> CanProceed(b, cost) && CanProceed(Consume(b, cost), Scale(cost, n - 1))
    ensures Consume(b, Scale(cost, n)) == Consume(Consume(b, cost), Scale(cost, n - 1))
  {
    PoolStep(b.read, cost.read, n);
    PoolStep(b.write, cost.write, n);
    assert CanProceed(b, Scale(cost, n))
      <==> Affords(b.read, Times(cost.read, n)) && Affords(b.write, Times(cost.write, n));
  }

  /** A refilled bucket: its clock has caught up with `now`. */
  lemma {:induction false} SinglesFromRefilled(b: Bucket, cost: Cost, now: real, n: nat)
    requires b.lastRefill >= now
    ensures CanProceed(b, Scale(cost, n)) <==> AllGranted(b, Singles(now, cost, n))
    ensures CanProceed(b, Scale(cost, n)) ==> After(b, Singles(now, cost, n)) == Consume(b, Scale(cost, n))
    decreases n
  {
    if n == 0 {
      assert Scale(cost, 0) == Cost(0.0, 0.0);
    } else {
      var ops, op := Singles(now, cost, n), TryAcquire(now, cost);
      assert ops[0] == op && ops[1..] == Singles(now, cost, n - 1);
      BatchStep(b, cost, n);
      if Grants(b, op) {
        SinglesFromRefilled(Consume(b, cost), cost, now, n - 1);
      }
    }
  }

  /** Batch equals singles: billing a request for n units is granted exactly
      when n requests for one unit at the same instant all are, and leaves the
      same bucket; with or without a cost table. */
  lemma {:induction false} BatchEqualsSingles(
    b: Bucket, now: real, prices: Prices, verb: string, path: string, caller: Cost, units: int)
    ensures var batch, one := Resolve(prices, verb, path, caller, units), Resolve(prices, verb, path, caller, 1);
            var n := if units < 1 then 1 else units;
      && (Grants(b, TryAcquire(now, batch)) <==> AllGranted(b, Singles(now, one, n)))
      && (Grants(b, TryAcquire(now, batch)) ==> After(b, Singles(now, one, n)) == Step(b, TryAcquire(now, batch)))
  {
    var one, n := Resolve(prices, verb, path, caller, 1), Units(units);
    var r := Refill(b, now);
    ResolveScales(prices, verb, path, caller, units);
    SinglesFromRefilled(r, one, now, n);
    var ops := Singles(now, one, n);
    assert ops[0] == TryAcquire(now, one);
    assert Step(b, ops[0]) == Step(r, ops[0]) && Grants(b, ops[0]) == Grants(r, ops[0]);
    assert After(b, ops) == After(r, ops) && AllGranted(b, ops) == AllGranted(r, ops);
  }
}
