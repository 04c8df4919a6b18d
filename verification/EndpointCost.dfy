/** Matching request paths against the endpoint-costs table
    (endpoint_cost.go). */
module EndpointCost {

  // ---------------------------------------------------------------------
  // Paths and segments
  // ---------------------------------------------------------------------

  function TrimLeft(s: string): string {
    if s != [] && s[0] == '/' then TrimLeft(s[1..]) else s
  }

  function TrimRight(s: string): string {
    if s != [] && s[|s| - 1] == '/' then TrimRight(s[..|s| - 1]) else s
  }

  function Trim(s: string): string {
    TrimRight(TrimLeft(s))
  }

  /** Cutting at every slash; the empty string is one empty piece. */
  function Split(s: string): (pieces: seq<string>)
    ensures pieces != [] && Join(pieces) == s
    ensures forall piece :: piece in pieces ==> '/' !in piece
  {
    if s == "" then [""]
    else
      var rest := Split(s[1..]);
      if s[0] == '/' then
        assert Join([""] + rest) == "/" + Join(rest);
        [""] + rest
      else
        assert rest == [rest[0]] + rest[1..];
        assert Join([[s[0]] + rest[0]] + rest[1..]) == [s[0]] + Join(rest);
        [[s[0]] + rest[0]] + rest[1..]
  }

  function Join(pieces: seq<string>): string {
    if pieces == [] then ""
    else if |pieces| == 1 then pieces[0]
    else pieces[0] + "/" + Join(pieces[1..])
  }

  function SplitPath(path: string): seq<string> {
    var trimmed := Trim(path);
    if trimmed == "" then [] else Split(trimmed)
  }

  predicate SlashFree(segments: seq<string>) {
    forall s :: s in segments ==> '/' !in s
  }

  predicate EndsNonEmpty(segments: seq<string>) {
    segments != [] ==> segments[0] != "" && segments[|segments| - 1] != ""
  }

  /** Neither end of a trimmed string is a slash. */
  predicate Trimmed(s: string) {
    s != [] ==> s[0] != '/' && s[|s| - 1] != '/'
  }

  lemma {:induction false} TrimRightTrims(s: string)
    ensures TrimRight(s) <= s
    ensures TrimRight(s) != [] ==> TrimRight(s)[|TrimRight(s)| - 1] != '/'
    ensures s == TrimRight(s) <==> (s != [] ==> s[|s| - 1] != '/')
  {
    if s != [] && s[|s| - 1] == '/' {
      TrimRightTrims(s[..|s| - 1]);
    }
  }

  lemma {:induction false} TrimLeftTrims(s: string)
    ensures TrimLeft(s) != [] ==> TrimLeft(s)[0] != '/'
    ensures s == TrimLeft(s) <==> (s != [] ==> s[0] != '/')
    ensures |TrimLeft(s)| <= |s|
  {
    if s != [] && s[0] == '/' {
      TrimLeftTrims(s[1..]);
    }
  }

  lemma {:induction false} TrimTrims(s: string)
    ensures Trimmed(Trim(s))
    ensures Trim(s) == s <==> Trimmed(s)
  {
    TrimLeftTrims(s);
    TrimRightTrims(TrimLeft(s));
    TrimRightTrims(s);
  }

  lemma {:induction false} SplitFirst(c: char, s: string)
    ensures Split([c] + s) == if c == '/' then [""] + Split(s) else [[c] + Split(s)[0]] + Split(s)[1..]
  {
    assert ([c] + s)[1..] == s;
  }

  lemma {:induction false} SplitAppend(piece: string, rest: string)
    requires '/' !in piece
    ensures Split(piece) == [piece]
    ensures Split(piece + "/" + rest) == [piece] + Split(rest)
  {
    if piece == "" {
      SplitFirst('/', rest);
      assert piece + "/" + rest == ['/'] + rest;
    } else {
      hide Split;
      var c, tail := piece[0], piece[1..];
      SplitAppend(tail, rest);
      SplitFirst(c, tail);
      SplitFirst(c, tail + "/" + rest);
      assert piece == [c] + tail;
      assert piece + "/" + rest == [c] + (tail + "/" + rest);
    }
  }

  /** Cutting undoes joining. */
  lemma {:induction false} SplitJoin(pieces: seq<string>)
    requires pieces != [] && SlashFree(pieces)
    ensures Split(Join(pieces)) == pieces
  {
    SplitAppend(pieces[0], Join(pieces[1..]));
    if |pieces| > 1 {
      SplitJoin(pieces[1..]);
    }
  }

  lemma {:induction false} JoinEnds(pieces: seq<string>)
    requires pieces != [] && SlashFree(pieces)
    ensures Trimmed(Join(pieces)) && Join(pieces) != "" <==> EndsNonEmpty(pieces)
    ensures |pieces| > 1 ==> Join(pieces) != ""
    ensures pieces[|pieces| - 1] != "" ==> Join(pieces) != "" && Join(pieces)[|Join(pieces)| - 1] != '/'
    ensures Join(pieces) != "" && Join(pieces)[|Join(pieces)| - 1] != '/' ==> pieces[|pieces| - 1] != ""
  {
    assert pieces[0] in pieces;
    if |pieces| > 1 {
      var rest := pieces[1..];
      JoinEnds(rest);
      assert rest[|rest| - 1] == pieces[|pieces| - 1];
      var joined := Join(pieces);
      assert joined == pieces[0] + "/" + Join(rest);
      assert Join(rest) != "" ==> joined[|joined| - 1] == Join(rest)[|Join(rest)| - 1];
      assert Join(rest) == "" ==> joined[|joined| - 1] == '/';
    }
  }

  /** Round trip: splitting a joined list gives it back exactly when its ends
      are non-empty. */
  lemma {:induction false} SplitPathInvertsJoin(segments: seq<string>)
    requires SlashFree(segments)
    ensures SplitPath(Join(segments)) == segments <==> EndsNonEmpty(segments)
  {
    var joined := Join(segments);
    TrimTrims(joined);
    if segments != [] {
      JoinEnds(segments);
      SplitJoin(segments);
      SplitPathIsWellFormed(joined);
    }
  }

  lemma {:induction false} SplitPathIsWellFormed(path: string)
    ensures SlashFree(SplitPath(path)) && EndsNonEmpty(SplitPath(path))
    ensures Join(SplitPath(path)) == Trim(path)
  {
    TrimTrims(path);
    if Trim(path) != "" {
      JoinEnds(Split(Trim(path)));
    }
  }

  /** Slashes around a path do not matter. */
  lemma {:induction false} OuterSlashesIgnored(path: string)
    ensures SplitPath("/" + path) == SplitPath(path)
    ensures SplitPath(path + "/") == SplitPath(path)
  {
    assert ("/" + path)[1..] == path;
    TrimLeftAppend(path);
  }

  lemma {:induction false} TrimLeftAppend(path: string)
    ensures Trim(path + "/") == Trim(path)
  {
    if path == [] {
      assert path + "/" == "/";
      assert "/"[1..] == "";
    } else if path[0] == '/' {
      assert (path + "/")[1..] == path[1..] + "/";
      TrimLeftAppend(path[1..]);
    } else {
      assert (path + "/")[..|path|] == path;
    }
  }

  predicate HasDoubleSlash(s: string) {
    exists i :: 0 <= i < |s| - 1 && s[i] == '/' && s[i + 1] == '/'
  }

  /** Despite its comment, splitPath can produce empty segments: exactly when
      the path has two slashes in a row between its ends. */
  lemma {:induction false} EmptySegmentIff(path: string)
    ensures "" in SplitPath(path) <==> HasDoubleSlash(Trim(path))
  {
    var t := Trim(path);
    TrimTrims(path);
    if t != "" {
      EmptyPieceIff(t);
    }
  }

  lemma {:induction false} DoubleSlashStep(s: string)
    requires |s| > 1
    ensures HasDoubleSlash(s) <==> (s[0] == '/' && s[1] == '/') || HasDoubleSlash(s[1..])
  {
    if HasDoubleSlash(s) {
      var i :| 0 <= i < |s| - 1 && s[i] == '/' && s[i + 1] == '/';
      if i > 0 {
        assert s[1..][i - 1] == '/' && s[1..][i] == '/';
      }
    }
    if HasDoubleSlash(s[1..]) {
      var i :| 0 <= i < |s| - 2 && s[1..][i] == '/' && s[1..][i + 1] == '/';
      assert s[i + 1] == '/' && s[i + 2] == '/';
    }
  }

  /** An empty piece comes from a slash at an end or from a double slash. */
  lemma {:induction false} EmptyPieceIff(s: string)
    requires s != ""
    ensures "" in Split(s) <==> s[0] == '/' || s[|s| - 1] == '/' || HasDoubleSlash(s)
    ensures "" in Split(s)[1..] <==> s[|s| - 1] == '/' || HasDoubleSlash(s)
  {
    var rest := Split(s[1..]);
    assert rest == [rest[0]] + rest[1..];
    if |s| == 1 {
      assert s[1..] == "" && rest == [""];
    } else {
      EmptyPieceIff(s[1..]);
      DoubleSlashStep(s);
      hide HasDoubleSlash;
      if s[0] == '/' {
        assert Split(s)[1..] == rest;
      } else {
        assert Split(s)[1..] == rest[1..];
        assert Split(s)[0] != "";
        assert Split(s) == [Split(s)[0]] + Split(s)[1..];
      }
    }
  }

  // ---------------------------------------------------------------------
  // Routes
  // ---------------------------------------------------------------------

  /** A segment standing for a parameter, in any syntax in circulation. */
  predicate IsPathPlaceholder(segment: string) {
    segment != ""
    && (segment[0] in {':', '*', '$'}
        || (segment[0] == '{' && segment[|segment| - 1] == '}')
        || (segment[0] == '<' && segment[|segment| - 1] == '>'))
  }

  predicate IsTrailingWildcard(segment: string) {
    segment != "" && segment[0] == '*'
  }

  /** Position of the first wildcard, or the length when there is none. */
  function FirstWildcard(pattern: seq<string>): (k: nat)
    ensures k <= |pattern|
    ensures k < |pattern| ==> IsTrailingWildcard(pattern[k])
    ensures forall i :: 0 <= i < k ==> !IsTrailingWildcard(pattern[i])
  {
    if pattern == [] || IsTrailingWildcard(pattern[0]) then 0 else 1 + FirstWildcard(pattern[1..])
  }

  predicate SegmentFits(want: string, actual: string) {
    IsPathPlaceholder(want) || want == actual
  }

  /** What a pattern means: every segment before the first wildcard fits, and
      the wildcard takes all the rest, which is at least one segment; without a
      wildcard the lengths agree. */
  predicate Describes(pattern: seq<string>, actual: seq<string>) {
    var k := FirstWildcard(pattern);
    && (if k < |pattern| then |actual| > k else |actual| == |pattern|)
    && forall i :: 0 <= i < k ==> SegmentFits(pattern[i], actual[i])
  }

  /** The same meaning, segment by segment. */
  predicate DescribesFromLeft(pattern: seq<string>, actual: seq<string>) {
    if pattern == [] then actual == []
    else actual != []
         && (IsTrailingWildcard(pattern[0])
             || (SegmentFits(pattern[0], actual[0]) && DescribesFromLeft(pattern[1..], actual[1..])))
  }

  lemma {:induction false} MeaningsAgree(pattern: seq<string>, actual: seq<string>)
    ensures Describes(pattern, actual) <==> DescribesFromLeft(pattern, actual)
  {
    if pattern != [] && actual != [] && !IsTrailingWildcard(pattern[0]) {
      MeaningsAgree(pattern[1..], actual[1..]);
      var k := FirstWildcard(pattern[1..]);
      if Describes(pattern, actual) {
        forall i | 0 <= i < k ensures SegmentFits(pattern[1..][i], actual[1..][i]) {
          assert SegmentFits(pattern[i + 1], actual[i + 1]);
        }
      }
      if Describes(pattern[1..], actual[1..]) && SegmentFits(pattern[0], actual[0]) {
        forall i | 0 <= i < k + 1 ensures SegmentFits(pattern[i], actual[i]) {
          assert i > 0 ==> SegmentFits(pattern[1..][i - 1], actual[1..][i - 1]);
        }
      }
    }
  }

  method SegmentsMatch(pattern: seq<string>, actual: seq<string>) returns (matched: bool)
    ensures matched <==> Describes(pattern, actual)
  {
    for i := 0 to |pattern|
      invariant i <= FirstWildcard(pattern) && i <= |actual|
      invariant forall j :: 0 <= j < i ==> SegmentFits(pattern[j], actual[j])
    {
      var want := pattern[i];
      if IsTrailingWildcard(want) {
        return |actual| > i;
      }
      if i >= |actual| {
        return false;
      }
      if IsPathPlaceholder(want) {
        continue;
      }
      if want != actual[i] {
        assert !SegmentFits(pattern[i], actual[i]);
        return false;
      }
    }
    return |actual| == |pattern|;
  }

  /** The segments obtained by putting `fill` for placeholders and `tail` for
      the first wildcard and whatever follows it. */
  function Instantiate(pattern: seq<string>, fill: seq<string>, tail: seq<string>): seq<string>
    requires |fill| == |pattern|
  {
    if pattern == [] then []
    else if IsTrailingWildcard(pattern[0]) then tail
    else [if IsPathPlaceholder(pattern[0]) then fill[0] else pattern[0]]
         + Instantiate(pattern[1..], fill[1..], tail)
  }

  ghost predicate IsInstance(pattern: seq<string>, actual: seq<string>) {
    exists fill: seq<string>, tail: seq<string> ::
      |fill| == |pattern| && tail != [] && actual == Instantiate(pattern, fill, tail)
  }

  /** A pattern describes exactly the instances of it. */
  lemma {:induction false} DescribesItsInstances(pattern: seq<string>, actual: seq<string>)
    ensures Describes(pattern, actual) <==> IsInstance(pattern, actual)
  {
    MeaningsAgree(pattern, actual);
    if DescribesFromLeft(pattern, actual) {
      var fill, tail := FillFor(pattern, actual);
    }
    if IsInstance(pattern, actual) {
      var fill, tail :| |fill| == |pattern| && tail != [] && actual == Instantiate(pattern, fill, tail);
      InstanceIsDescribed(pattern, fill, tail);
    }
  }

  lemma {:induction false} FillFor(pattern: seq<string>, actual: seq<string>)
    returns (fill: seq<string>, tail: seq<string>)
    requires DescribesFromLeft(pattern, actual)
    ensures |fill| == |pattern| && tail != [] && actual == Instantiate(pattern, fill, tail)
  {
    if pattern == [] {
      fill, tail := [], [""];
    } else if IsTrailingWildcard(pattern[0]) {
      fill, tail := pattern, actual;
    } else {
      var rest;
      rest, tail := FillFor(pattern[1..], actual[1..]);
      fill := [actual[0]] + rest;
      assert fill[1..] == rest;
      assert actual == [actual[0]] + actual[1..];
    }
  }

  lemma {:induction false} InstanceIsDescribed(pattern: seq<string>, fill: seq<string>, tail: seq<string>)
    requires |fill| == |pattern| && tail != []
    ensures DescribesFromLeft(pattern, Instantiate(pattern, fill, tail))
  {
    if pattern != [] && !IsTrailingWildcard(pattern[0]) {
      InstanceIsDescribed(pattern[1..], fill[1..], tail);
      var actual := Instantiate(pattern, fill, tail);
      assert actual[1..] == Instantiate(pattern[1..], fill[1..], tail);
    }
  }

  datatype CostRoute = CostRoute(verb: string, segments: seq<string>, cost: real, literals: nat, rawPath: string)

  function CountLiterals(segments: seq<string>): (n: nat)
    ensures n <= |segments|
    ensures n == |segments| <==> PlaceholderFree(segments)
  {
    if segments == [] then 0
    else
      assert segments == [segments[0]] + segments[1..];
      (if IsPathPlaceholder(segments[0]) then 0 else 1) + CountLiterals(segments[1..])
  }

  predicate PlaceholderFree(segments: seq<string>) {
    forall s :: s in segments ==> !IsPathPlaceholder(s)
  }

  /** Upper-casing of an HTTP method, which is ASCII. */
  function ToUpper(s: string): string {
    if s == "" then ""
    else [if 'a' <= s[0] <= 'z' then s[0] - 'a' + 'A' else s[0]] + ToUpper(s[1..])
  }

  function FullPath(path: string): string {
    if "/trade-api" <= path then path else "/trade-api/v2" + path
  }

  function RouteOf(verb: string, path: string, cost: real): CostRoute {
    var segments := SplitPath(FullPath(path));
    CostRoute(ToUpper(verb), segments, cost, CountLiterals(segments), FullPath(path))
  }

  lemma {:induction false} CountLiteralsSnoc(segments: seq<string>, last: string)
    ensures CountLiterals(segments + [last])
         == CountLiterals(segments) + (if IsPathPlaceholder(last) then 0 else 1)
  {
    if segments == [] {
      assert segments + [last] == [last];
    } else {
      assert (segments + [last])[1..] == segments[1..] + [last];
      CountLiteralsSnoc(segments[1..], last);
    }
  }

  method NewCostRoute(verb: string, path: string, cost: real) returns (route: CostRoute)
    ensures route == RouteOf(verb, path, cost)
  {
    var full := path;
    if !("/trade-api" <= full) {
      full := "/trade-api/v2" + full;
    }
    var segments := SplitPath(full);
    var literals := 0;
    for i := 0 to |segments|
      invariant literals == CountLiterals(segments[..i])
    {
      assert segments[..i + 1] == segments[..i] + [segments[i]];
      CountLiteralsSnoc(segments[..i], segments[i]);
      if !IsPathPlaceholder(segments[i]) {
        literals := literals + 1;
      }
    }
    assert segments[..|segments|] == segments;
    route := CostRoute(ToUpper(verb), segments, cost, literals, full);
  }

  predicate Matches(route: CostRoute, verb: string, path: string) {
    route.verb == ToUpper(verb) && Describes(route.segments, SplitPath(path))
  }

  // ---------------------------------------------------------------------
  // Routes, literally
  // ---------------------------------------------------------------------

  /** Which segments stand for parameters: the five marked forms fit everything and
      count as no literal; any other segment fits only itself and counts as one. */
  lemma {:induction false} SegmentMeaning(want: string, actual: string, x: string)
    ensures var marked := want != ""
                          && (want[0] == ':' || want[0] == '*' || want[0] == '$'
                              || (want[0] == '{' && want[|want| - 1] == '}')
                              || (want[0] == '<' && want[|want| - 1] == '>'));
      && (Describes([want], [actual]) <==> marked || want == actual)
      && CountLiterals([want]) == if marked then 0 else 1
    ensures forall form :: form in {":" + x, "*" + x, "$" + x, "{" + x + "}", "<" + x + ">"} ==>
              Describes([form], [actual]) && CountLiterals([form]) == 0
  {
    forall form | form in {want, ":" + x, "*" + x, "$" + x, "{" + x + "}", "<" + x + ">"}
      ensures Describes([form], [actual]) <==> SegmentFits(form, actual)
      ensures CountLiterals([form]) == if IsPathPlaceholder(form) then 0 else 1
    {
      MeaningsAgree([form], [actual]);
      assert [form][1..] == [] && [actual][1..] == [];
    }
  }

  /** How segments make up a pattern: one at a time from the left, except that one
      that begins with `*` takes all the rest, which must not be empty; literals
      add up. */
  lemma {:induction false} PatternMeaning(want: string, rest: seq<string>, actual: seq<string>)
    ensures Describes([], actual) <==> actual == []
    ensures Describes([want] + rest, actual) <==>
              && actual != []
              && ((want != "" && want[0] == '*')
                  || (Describes([want], [actual[0]]) && Describes(rest, actual[1..])))
    ensures CountLiterals([]) == 0 && CountLiterals([want] + rest) == CountLiterals([want]) + CountLiterals(rest)
  {
    MeaningsAgree([], actual);
    MeaningsAgree([want] + rest, actual);
    assert ([want] + rest)[1..] == rest && [want][1..] == [];
    if actual != [] {
      MeaningsAgree([want], [actual[0]]);
      MeaningsAgree(rest, actual[1..]);
      assert [actual[0]][1..] == [];
    }
  }

  /** Equal up to the case of ASCII letters. */
  predicate EqualFold(a: string, b: string) {
    && |a| == |b|
    && forall i :: 0 <= i < |a| ==>
         || a[i] == b[i]
         || ('a' <= a[i] <= 'z' && b[i] == a[i] - 'a' + 'A')
         || ('a' <= b[i] <= 'z' && a[i] == b[i] - 'a' + 'A')
  }

  lemma {:induction false} EqualFoldIff(a: string, b: string)
    ensures EqualFold(a, b) <==> ToUpper(a) == ToUpper(b)
    ensures a == "" <==> ToUpper(a) == ""
  {
    if a != "" && b != "" {
      EqualFoldIff(a[1..], b[1..]);
      EqualFoldStep(a, b);
      assert ToUpper(a)[1..] == ToUpper(a[1..]) && ToUpper(b)[1..] == ToUpper(b[1..]);
      assert EqualFold([a[0]], [b[0]]) <==> ToUpper(a)[0] == ToUpper(b)[0] by {
        assert [a[0]][0] == a[0] && [b[0]][0] == b[0];
      }
      assert ToUpper(a) == [ToUpper(a)[0]] + ToUpper(a[1..]) && ToUpper(b) == [ToUpper(b)[0]] + ToUpper(b[1..]);
    }
  }

  lemma {:induction false} EqualFoldStep(a: string, b: string)
    requires a != "" && b != ""
    ensures EqualFold(a, b) <==> EqualFold([a[0]], [b[0]]) && EqualFold(a[1..], b[1..])
  {
    if EqualFold(a, b) {
      assert forall i :: 0 <= i < |a| - 1 ==> a[1..][i] == a[i + 1] && b[1..][i] == b[i + 1];
    }
    if EqualFold([a[0]], [b[0]]) && EqualFold(a[1..], b[1..]) {
      assert [a[0]][0] == a[0] && [b[0]][0] == b[0];
      assert forall i :: 0 < i < |a| ==> a[i] == a[1..][i - 1] && b[i] == b[1..][i - 1];
    }
  }

  /** What a table entry applies to, and what it says: requests with its method, in
      any case of letters, whose path its prefixed path describes. */
  lemma {:induction false} RouteMeaning(verb: string, path: string, cost: real, v: string, request: string)
    ensures var r := RouteOf(verb, path, cost);
            var full := if "/trade-api" <= path then path else "/trade-api/v2" + path;
      && (Matches(r, v, request) <==> EqualFold(verb, v) && Describes(SplitPath(full), SplitPath(request)))
      && r.cost == cost && r.rawPath == full && r.literals == CountLiterals(SplitPath(full))
  {
    EqualFoldIff(verb, v);
  }

  lemma {:induction false} SplitPathOf(path: string, segments: seq<string>)
    requires SlashFree(segments) && EndsNonEmpty(segments) && path == "/" + Join(segments)
    ensures SplitPath(path) == segments
  {
    SplitPathInvertsJoin(segments);
    OuterSlashesIgnored(Join(segments));
  }

  lemma {:induction false} ApiPath(segments: seq<string>)
    requires segments != [] && SlashFree(segments) && "" !in segments
    ensures SplitPath("/trade-api/v2/" + Join(segments)) == ["trade-api", "v2"] + segments
  {
    var all := ["trade-api", "v2"] + segments;
    assert all[1..][1..] == segments && Join(all[1..]) == "v2" + "/" + Join(segments);
    assert "/trade-api/v2/" + Join(segments) == "/" + Join(all);
    assert segments[|segments| - 1] in segments;
    SplitPathOf("/trade-api/v2/" + Join(segments), all);
  }

  /** A segment ":name" of a table path takes any one non-empty segment, and a last
      segment "*name" any non-empty rest of the path. */
  lemma {:induction false} ParameterRoute(
    verb: string, cost: real, before: seq<string>, name: string, after: seq<string>, tail: seq<string>)
    requires SlashFree(before) && SlashFree(after) && SlashFree(tail) && '/' !in name
    requires "" !in before && "" !in after && "" !in tail && tail != []
    ensures Matches(RouteOf(verb, "/trade-api/v2/" + Join(before + [":" + name] + after), cost), verb,
                    "/trade-api/v2/" + Join(before + [tail[0]] + after))
    ensures Matches(RouteOf(verb, "/trade-api/v2/" + Join(before + ["*" + name]), cost), verb,
                    "/trade-api/v2/" + Join(before + tail))
  {
    hide SplitPath, Join, Split, Describes, IsPathPlaceholder, RouteOf, Matches, CountLiterals;
    assert tail[0] in tail;
    PatternMeaning(":" + name, after, [tail[0]] + after);
    SegmentMeaning(":" + name, tail[0], name);
    SelfDescribed(after);
    assert ([tail[0]] + after)[1..] == after;
    DescribedRoute(verb, cost, before, [":" + name] + after, [tail[0]] + after);
    assert before + ([":" + name] + after) == before + [":" + name] + after;
    assert before + ([tail[0]] + after) == before + [tail[0]] + after;
    PatternMeaning("*" + name, [], tail);
    assert ["*" + name] + [] == ["*" + name];
    DescribedRoute(verb, cost, before, ["*" + name], tail);
  }

  /** The end of a table path describes the end of a request. */
  lemma {:induction false} DescribedRoute(
    verb: string, cost: real, before: seq<string>, pattern: seq<string>, actual: seq<string>)
    requires SlashFree(before) && SlashFree(pattern) && SlashFree(actual) && pattern != [] && actual != []
    requires "" !in before && "" !in pattern && "" !in actual && Describes(pattern, actual)
    ensures Matches(RouteOf(verb, "/trade-api/v2/" + Join(before + pattern), cost), verb,
                    "/trade-api/v2/" + Join(before + actual))
  {
    hide SplitPath, Join, Split, Describes, ToUpper;
    var prefix := ["trade-api", "v2"];
    ApiPath(before + pattern);
    ApiPath(before + actual);
    AfterPrefix(prefix + before, pattern, actual);
    assert prefix + (before + pattern) == prefix + before + pattern;
    assert prefix + (before + actual) == prefix + before + actual;
    assert "/trade-api" <= "/trade-api/v2/" + Join(before + pattern);
  }

  lemma {:induction false} SelfDescribed(segments: seq<string>)
    ensures Describes(segments, segments)
  {
    forall i | 0 <= i < |segments| ensures SegmentFits(segments[i], segments[i]) {
    }
  }

  /** The same segments in front do no harm. */
  lemma {:induction false} AfterPrefix(front: seq<string>, pattern: seq<string>, actual: seq<string>)
    requires Describes(pattern, actual) && actual != []
    ensures Describes(front + pattern, front + actual)
  {
    if front == [] {
      assert front + pattern == pattern && front + actual == actual;
    } else {
      var rest := front[1..];
      AfterPrefix(rest, pattern, actual);
      PatternMeaning(front[0], rest + pattern, front + actual);
      SegmentMeaning(front[0], front[0], "");
      assert [front[0]] + (rest + pattern) == front + pattern && (front + actual)[1..] == rest + actual;
    }
  }

  /** Every table entry is usable: whatever non-empty, slash-free segments are
      put for its placeholders, its route matches the resulting path. */
  lemma {:induction false} RouteIsReachable(
    verb: string, path: string, cost: real, fill: seq<string>, tail: seq<string>)
    requires |fill| == |RouteOf(verb, path, cost).segments| && tail != []
    requires SlashFree(fill) && SlashFree(tail) && "" !in fill && "" !in tail
    ensures Matches(RouteOf(verb, path, cost), verb,
                    "/" + Join(Instantiate(RouteOf(verb, path, cost).segments, fill, tail)))
  {
    var pattern := RouteOf(verb, path, cost).segments;
    var actual := Instantiate(pattern, fill, tail);
    SplitPathIsWellFormed(FullPath(path));
    assert IsInstance(pattern, actual);
    DescribesItsInstances(pattern, actual);
    InstanceIsWellFormed(pattern, fill, tail);
    SplitPathInvertsJoin(actual);
    OuterSlashesIgnored(Join(actual));
  }

  lemma {:induction false} InstanceIsWellFormed(pattern: seq<string>, fill: seq<string>, tail: seq<string>)
    requires |fill| == |pattern| && tail != [] && SlashFree(pattern)
    requires SlashFree(fill) && SlashFree(tail) && "" !in fill && "" !in tail
    ensures var actual := Instantiate(pattern, fill, tail);
      && SlashFree(actual)
      && (pattern != [] ==> actual != [])
      && (pattern != [] && pattern[0] != "" ==> actual[0] != "")
      && (pattern != [] && pattern[|pattern| - 1] != "" ==> actual[|actual| - 1] != "")
  {
    if pattern != [] && !IsTrailingWildcard(pattern[0]) {
      InstanceIsWellFormed(pattern[1..], fill[1..], tail);
    }
  }
}
