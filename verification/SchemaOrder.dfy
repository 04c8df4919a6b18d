/** Declaration order of generated types (tools/generate_types/main.go): the
    references of a schema, a depth-first topological sort that tolerates
    cycles, and the stable sort by group on top of it. */
module SchemaOrder {
  import opened StableSort
  import opened StringOrder

  // ---------------------------------------------------------------------
  // References
  // ---------------------------------------------------------------------

  /** The parts of a schema that can carry a reference. `Missing` is the nil
      schema: an unknown name, or an absent `items`. */
  datatype Schema =
    | Missing
    | Schema(reference: string, properties: seq<Schema>, items: Schema, allOf: seq<Schema>)

  /** The part of a reference after its last slash. */
  function RefToName(reference: string): (name: string)
    ensures '/' !in name
    ensures name == reference || (|name| < |reference| && reference[|reference| - |name| - 1..] == "/" + name)
  {
    if '/' !in reference then reference
    else
      assert reference == [reference[0]] + reference[1..];
      if '/' in reference[1..] then RefToName(reference[1..]) else reference[1..]
  }

  function OwnRefs(schema: Schema): set<string>
    requires schema.Schema?
  {
    if schema.reference != "" then {RefToName(schema.reference)} else {}
  }

  function CollectRefs(schema: Schema): set<string> {
    if schema.Missing? then {}
    else
      OwnRefs(schema)
      + (set p, r | p in schema.properties && r in CollectRefs(p) :: r)
      + CollectRefs(schema.items)
      + (set a, r | a in schema.allOf && r in CollectRefs(a) :: r)
  }

  /** `part` is `schema` or occurs somewhere inside it. */
  ghost predicate Within(part: Schema, schema: Schema)
    decreases schema
  {
    part == schema
    || (schema.Schema?
        && ((exists p :: p in schema.properties && Within(part, p))
            || Within(part, schema.items)
            || (exists a :: a in schema.allOf && Within(part, a))))
  }

  /** CollectRefs finds the references of every schema nested at any depth, and
      nothing else. */
  lemma {:induction false} CollectsNestedRefs(schema: Schema, name: string)
    ensures name in CollectRefs(schema)
        <==> exists part: Schema :: part.Schema? && Within(part, schema) && name in OwnRefs(part)
    decreases schema
  {
    if schema.Schema? {
      forall p | p in schema.properties || p in schema.allOf || p == schema.items
        ensures name in CollectRefs(p)
            <==> exists part: Schema :: part.Schema? && Within(part, p) && name in OwnRefs(part)
      {
        CollectsNestedRefs(p, name);
      }
      if name in OwnRefs(schema) {
        assert Within(schema, schema);
      }
    }
  }

  /** The schema, or one nested in it at any depth, has a reference that is `name` or
      ends in "/name". */
  ghost predicate Mentions(schema: Schema, name: string)
    decreases schema
  {
    schema.Schema?
    && (|| (schema.reference != ""
            && (schema.reference == name
                || (|schema.reference| > |name| && schema.reference[|schema.reference| - |name| - 1..] == "/" + name)))
        || (exists p :: p in schema.properties && Mentions(p, name))
        || Mentions(schema.items, name)
        || (exists a :: a in schema.allOf && Mentions(a, name)))
  }

  lemma {:induction false} RefToNameIff(reference: string, name: string)
    requires '/' !in name
    ensures RefToName(reference) == name <==>
            reference == name
            || (|reference| > |name| && reference[|reference| - |name| - 1..] == "/" + name)
  {
    var own, k := RefToName(reference), |reference| - |name| - 1;
    var j := |reference| - |own| - 1;
    assert own != reference ==> reference[j] == reference[j..][0] == '/';
    if |reference| > |name| && own != name {
      if own != reference && |name| == |own| {
        assert ("/" + own)[1..] != ("/" + name)[1..];
      } else if own != reference && |name| > |own| {
        assert reference[k..][j - k] == '/' && ("/" + name)[j - k] == name[j - k - 1];
        assert name[j - k - 1] in name;
      } else {
        assert own == reference || own == reference[j + 1..] by {
          assert own != reference ==> own == ("/" + own)[1..] && reference[j..][1..] == reference[j + 1..];
        }
        assert reference[k] in own && reference[k..][0] == reference[k];
      }
    }
  }

  lemma {:induction false} OwnMention(schema: Schema, name: string)
    requires schema.Schema?
    ensures name in OwnRefs(schema) <==>
            && '/' !in name && schema.reference != ""
            && (schema.reference == name
                || (|schema.reference| > |name| && schema.reference[|schema.reference| - |name| - 1..] == "/" + name))
  {
    if '/' !in name {
      RefToNameIff(schema.reference, name);
    }
  }

  /** The names collected are exactly the slash-free names mentioned. */
  lemma {:induction false} CollectsMentions(schema: Schema, name: string)
    ensures name in CollectRefs(schema) <==> '/' !in name && Mentions(schema, name)
    decreases schema
  {
    if schema.Schema? {
      OwnMention(schema, name);
      hide OwnRefs, RefToName;
      forall p | p in schema.properties || p in schema.allOf || p == schema.items
        ensures name in CollectRefs(p) <==> '/' !in name && Mentions(p, name)
      {
        CollectsMentions(p, name);
      }
    }
  }

  // ---------------------------------------------------------------------
  // Dependency graphs
  // ---------------------------------------------------------------------

  type Graph = map<string, set<string>>

  ghost predicate WellFormed(g: Graph) {
    forall u :: u in g ==> u !in g[u] && g[u] <= g.Keys
  }

  /** Consecutive elements of `path` are dependency edges. */
  ghost predicate IsPath(g: Graph, path: seq<string>) {
    && path != []
    && forall i :: 0 <= i < |path| - 1 ==> path[i] in g && path[i + 1] in g[path[i]]
  }

  /** `from` reaches `to` by following zero or more dependencies. */
  ghost predicate Reaches(g: Graph, from: string, to: string) {
    exists path :: IsPath(g, path) && path[0] == from && path[|path| - 1] == to
  }

  lemma {:induction false} ReachesItself(g: Graph, u: string)
    ensures Reaches(g, u, u)
  {
    assert IsPath(g, [u]);
  }

  lemma {:induction false} ReachesFurther(g: Graph, u: string, v: string, w: string)
    requires Reaches(g, u, v) && v in g && w in g[v]
    ensures Reaches(g, u, w)
  {
    var path :| IsPath(g, path) && path[0] == u && path[|path| - 1] == v;
    var longer := path + [w];
    assert IsPath(g, longer) && longer[0] == u && longer[|longer| - 1] == w;
  }

  /** No dependency leads back to its user. */
  ghost predicate Acyclic(g: Graph) {
    forall u, v :: u in g && v in g[u] ==> !Reaches(g, v, u)
  }

  // ---------------------------------------------------------------------
  // Sorted lists of a set of names
  // ---------------------------------------------------------------------

  /** `list` holds exactly the elements of `names`, in increasing order. */
  ghost predicate Lists(list: seq<string>, names: set<string>) {
    && (forall e :: e in list <==> e in names)
    && (forall i, j :: 0 <= i < j < |list| ==> Less(list[i], list[j]))
  }

  lemma {:induction false} ListsUnique(xs: seq<string>, ys: seq<string>, names: set<string>)
    requires Lists(xs, names) && Lists(ys, names)
    ensures xs == ys
    decreases |xs|
  {
    LessIsStrictWeak();
    EmptyList(xs, names);
    EmptyList(ys, names);
    if names != {} {
      assert xs[0] in ys && ys[0] in xs;
      assert xs[0] == ys[0];
      ListsTail(xs, names);
      ListsTail(ys, names);
      ListsUnique(xs[1..], ys[1..], names - {xs[0]});
      assert xs == [xs[0]] + xs[1..] && ys == [ys[0]] + ys[1..];
    }
  }

  lemma {:induction false} EmptyList(list: seq<string>, names: set<string>)
    requires Lists(list, names)
    ensures list == [] <==> names == {}
  {
    if list != [] {
      assert list[0] in list;
    }
  }

  lemma {:induction false} ListsTail(xs: seq<string>, names: set<string>)
    requires Lists(xs, names) && xs != []
    ensures Lists(xs[1..], names - {xs[0]})
  {
    LessIsStrictWeak();
    assert xs == [xs[0]] + xs[1..];
    forall i | 0 <= i < |xs[1..]| ensures xs[1..][i] != xs[0] {
      assert Less(xs[0], xs[i + 1]);
    }
  }

  ghost function SortedList(names: set<string>): (list: seq<string>)
    ensures Lists(list, names)
  {
    SortedListExists(names);
    var list :| Lists(list, names);
    list
  }

  /** Any enumeration of a set without repetition sorts to its list. */
  lemma {:induction false} SortLists(xs: seq<string>, names: set<string>)
    requires forall e :: e in xs <==> e in names
    requires forall i, j :: 0 <= i < j < |xs| ==> xs[i] != xs[j]
    ensures Lists(Sort(xs, Less), names)
  {
    LessIsStrictWeak();
    SortIsStable(xs, Less);
    var ys := Sort(xs, Less);
    DistinctPermutation(xs, ys);
    forall i, j | 0 <= i < j < |ys| ensures Less(ys[i], ys[j]) {
      assert !Less(ys[j], ys[i]) && !Tied(Less, ys[i], ys[j]);
    }
  }

  lemma {:induction false} DistinctPermutation(xs: seq<string>, ys: seq<string>)
    requires multiset(xs) == multiset(ys)
    requires forall i, j :: 0 <= i < j < |xs| ==> xs[i] != xs[j]
    ensures forall i, j :: 0 <= i < j < |ys| ==> ys[i] != ys[j]
    ensures forall e :: e in xs <==> e in ys
  {
    forall e ensures e in xs <==> e in ys {
      assert e in multiset(ys) <==> e in multiset(xs);
    }
    DistinctAreSingle(xs);
    forall i, j | 0 <= i < j < |ys| ensures ys[i] != ys[j] {
      RepeatsCountTwice(ys, i, j);
      assert ys[j] in xs;
    }
  }

  lemma {:induction false} DistinctAreSingle(xs: seq<string>)
    requires forall i, j :: 0 <= i < j < |xs| ==> xs[i] != xs[j]
    ensures forall e :: e in xs ==> multiset(xs)[e] == 1
  {
    if xs != [] {
      assert xs == [xs[0]] + xs[1..];
      DistinctAreSingle(xs[1..]);
    }
  }

  lemma {:induction false} SortedListExists(names: set<string>)
    ensures exists list :: Lists(list, names)
  {
    var xs := Enumerate(names);
    SortLists(xs, names);
  }

  lemma {:induction false} Enumerate(names: set<string>) returns (xs: seq<string>)
    ensures forall e :: e in xs <==> e in names
    ensures forall i, j :: 0 <= i < j < |xs| ==> xs[i] != xs[j]
  {
    xs := [];
    if names != {} {
      var e :| e in names;
      var rest := Enumerate(names - {e});
      xs := [e] + rest;
    }
  }

  // ---------------------------------------------------------------------
  // Depth-first topological sort
  // ---------------------------------------------------------------------

  /** Progress of the search: the finished names, and their output order. */
  datatype Search = Search(visited: set<string>, sorted: seq<string>)

  ghost function Visit(g: Graph, visiting: set<string>, s: Search, name: string): Search
    requires WellFormed(g) && visiting <= g.Keys && name in g
    decreases |g.Keys - visiting|, 0, 0
  {
    if name in s.visited || name in visiting then s
    else
      assert g.Keys - (visiting + {name}) == (g.Keys - visiting) - {name};
      var t := VisitAll(g, visiting + {name}, s, SortedList(g[name]));
      Search(t.visited + {name}, t.sorted + [name])
  }

  ghost function VisitAll(g: Graph, visiting: set<string>, s: Search, names: seq<string>): Search
    requires WellFormed(g) && visiting <= g.Keys && forall n :: n in names ==> n in g
    decreases |g.Keys - visiting|, 1, |names|
  {
    if names == [] then s
    else VisitAll(g, visiting, Visit(g, visiting, s, names[0]), names[1..])
  }

  /** `v` is output before position `i`, or lies on a cycle with what is there. */
  ghost predicate Settled(g: Graph, sorted: seq<string>, i: nat, v: string)
    requires i < |sorted|
  {
    v in sorted[..i] || Reaches(g, v, sorted[i])
  }

  /** Invariant of the search. */
  ghost predicate Ordered(g: Graph, s: Search) {
    && (forall n :: n in s.sorted <==> n in s.visited)
    && (forall i, j :: 0 <= i < j < |s.sorted| ==> s.sorted[i] != s.sorted[j])
    && s.visited <= g.Keys
    && (forall i, v :: 0 <= i < |s.sorted| && v in g[s.sorted[i]] ==> Settled(g, s.sorted, i, v))
  }

  ghost predicate AllReach(g: Graph, from: set<string>, to: string) {
    forall x :: x in from ==> Reaches(g, x, to)
  }

  lemma {:induction false} VisitKeepsOrdered(g: Graph, visiting: set<string>, s: Search, name: string)
    requires WellFormed(g) && visiting <= g.Keys && name in g
    requires Ordered(g, s) && visiting !! s.visited && AllReach(g, visiting, name)
    ensures var t := Visit(g, visiting, s, name);
      && Ordered(g, t) && visiting !! t.visited
      && s.visited <= t.visited && s.sorted <= t.sorted
      && (name in t.visited || name in visiting)
    decreases |g.Keys - visiting|, 0, 0
  {
    if name !in s.visited && name !in visiting {
      var inside, deps := visiting + {name}, SortedList(g[name]);
      assert g.Keys - inside == (g.Keys - visiting) - {name};
      ReachesItself(g, name);
      forall d | d in deps ensures AllReach(g, inside, d) {
        forall x | x in inside ensures Reaches(g, x, d) {
          ReachesFurther(g, x, name, d);
        }
      }
      VisitAllKeepsOrdered(g, inside, s, deps);
      var t := VisitAll(g, inside, s, deps);
      FinishKeepsOrdered(g, visiting, t, name);
    }
  }

  /** Finishing a name: each dependency is out already, or still being visited
      and so reaches the name. */
  lemma {:induction false} FinishKeepsOrdered(g: Graph, visiting: set<string>, t: Search, name: string)
    requires WellFormed(g) && name in g && Ordered(g, t) && name !in t.visited
    requires AllReach(g, visiting, name)
    requires forall d :: d in g[name] ==> d in t.visited || d in visiting
    ensures Ordered(g, Search(t.visited + {name}, t.sorted + [name]))
  {
    var sorted := t.sorted + [name];
    forall i, v | 0 <= i < |sorted| && v in g[sorted[i]] ensures Settled(g, sorted, i, v) {
      if i < |t.sorted| {
        assert Settled(g, t.sorted, i, v);
        assert sorted[..i] == t.sorted[..i];
      } else {
        assert sorted[..i] == t.sorted;
      }
    }
  }

  lemma {:induction false} VisitAllKeepsOrdered(g: Graph, visiting: set<string>, s: Search, names: seq<string>)
    requires WellFormed(g) && visiting <= g.Keys && forall n :: n in names ==> n in g
    requires Ordered(g, s) && visiting !! s.visited
    requires forall n :: n in names ==> AllReach(g, visiting, n)
    ensures var t := VisitAll(g, visiting, s, names);
      && Ordered(g, t) && visiting !! t.visited
      && s.visited <= t.visited && s.sorted <= t.sorted
      && forall n :: n in names ==> n in t.visited || n in visiting
    decreases |g.Keys - visiting|, 1, |names|
  {
    if names != [] {
      assert names[0] in names;
      VisitKeepsOrdered(g, visiting, s, names[0]);
      VisitAllKeepsOrdered(g, visiting, Visit(g, visiting, s, names[0]), names[1..]);
      assert names == [names[0]] + names[1..];
    }
  }

  ghost function TopologicalOrder(g: Graph, names: seq<string>): seq<string>
    requires WellFormed(g) && forall n :: n in names ==> n in g
  {
    VisitAll(g, {}, Search({}, []), names).sorted
  }

  /** Names that use nothing keep the order they are given in. */
  lemma {:induction false} UnrelatedKeepOrder(g: Graph, visiting: set<string>, s: Search, names: seq<string>)
    requires WellFormed(g) && visiting <= g.Keys
    requires forall n :: n in names ==> n in g && g[n] == {} && n !in s.visited && n !in visiting
    requires forall i, j :: 0 <= i < j < |names| ==> names[i] != names[j]
    ensures VisitAll(g, visiting, s, names).sorted == s.sorted + names
    decreases |names|
  {
    if names != [] {
      var name, rest := names[0], names[1..];
      assert name in names;
      EmptyList(SortedList({}), {});
      assert VisitAll(g, visiting + {name}, s, []) == s;
      var t := Search(s.visited + {name}, s.sorted + [name]);
      assert Visit(g, visiting, s, name) == t;
      forall n | n in rest ensures n in names && n != name {
        var i :| 0 <= i < |rest| && rest[i] == n;
        assert names[i + 1] == n;
      }
      UnrelatedKeepOrder(g, visiting, t, rest);
      assert s.sorted + [name] + rest == s.sorted + names;
    }
  }

  /** The names a type uses come before it in ascending order, if they use nothing
      themselves. */
  lemma {:induction false} DependenciesComeAscending(g: Graph, name: string, list: seq<string>)
    requires WellFormed(g) && name in g && name !in g[name] && forall d :: d in g[name] ==> d in g && g[d] == {}
    requires forall d :: d in list <==> d in g[name]
    requires forall i, j :: 0 <= i < j < |list| ==> Less(list[i], list[j])
    ensures TopologicalOrder(g, [name]) == list + [name]
  {
    var start := Search({}, []);
    ListsUnique(list, SortedList(g[name]), g[name]);
    LessIsStrictWeak();
    assert forall i, j :: 0 <= i < j < |list| ==> list[i] != list[j];
    UnrelatedKeepOrder(g, {name}, start, list);
    assert {} + {name} == {name};
    assert Visit(g, {}, start, name).sorted == [] + list + [name];
    assert [name][1..] == [];
    assert VisitAll(g, {}, start, [name]) == Visit(g, {}, start, name);
  }

  /** Each name is output exactly once. */
  ghost predicate OnceEach(order: seq<string>, names: seq<string>) {
    && (forall n :: n in order <==> n in names)
    && (forall i, j :: 0 <= i < j < |order| ==> order[i] != order[j])
  }

  /** The dependency `v` of `u` is declared before `u`, unless the two lie on a
      common cycle. */
  ghost predicate DeclaredInTime(g: Graph, order: seq<string>, u: string, v: string) {
    Precedes(order, v, u) || Reaches(g, v, u)
  }

  /** Cyclic-safe topological order. */
  lemma {:induction false} TopologicalOrderIsSafe(g: Graph, names: seq<string>)
    requires WellFormed(g) && forall n :: n in names <==> n in g
    ensures var order := TopologicalOrder(g, names);
      && OnceEach(order, names)
      && forall u, v :: u in g && v in g[u] ==> DeclaredInTime(g, order, u, v)
  {
    var start := Search({}, []);
    VisitAllKeepsOrdered(g, {}, start, names);
    var t := VisitAll(g, {}, start, names);
    forall u, v | u in g && v in g[u] ensures DeclaredInTime(g, t.sorted, u, v) {
      var i :| 0 <= i < |t.sorted| && t.sorted[i] == u;
      assert Settled(g, t.sorted, i, v);
    }
  }

  /** Every dependency comes before its user exactly when there is no cycle. */
  lemma {:induction false} AllPrecedeIffAcyclic(g: Graph, names: seq<string>)
    requires WellFormed(g) && forall n :: n in names <==> n in g
    ensures (forall u, v :: u in g && v in g[u] ==> Precedes(TopologicalOrder(g, names), v, u)) <==> Acyclic(g)
  {
    var order := TopologicalOrder(g, names);
    TopologicalOrderIsSafe(g, names);
    if Acyclic(g) {
      forall u, v | u in g && v in g[u] ensures Precedes(order, v, u) {
        assert DeclaredInTime(g, order, u, v);
      }
    }
    if forall u, v :: u in g && v in g[u] ==> Precedes(order, v, u) {
      forall u, v | u in g && v in g[u] ensures !Reaches(g, v, u) {
        if Reaches(g, v, u) {
          var path :| IsPath(g, path) && path[0] == v && path[|path| - 1] == u;
          PathGoesBack(g, order, path);
        }
      }
    }
  }

  /** When dependencies precede their users, a path only leads to earlier names. */
  lemma {:induction false} PathGoesBack(g: Graph, order: seq<string>, path: seq<string>)
    requires IsPath(g, path)
    requires forall i, j :: 0 <= i < j < |order| ==> order[i] != order[j]
    requires forall u, v :: u in g && v in g[u] ==> Precedes(order, v, u)
    ensures !Precedes(order, path[0], path[|path| - 1])
    decreases |path|
  {
    if |path| > 1 {
      var rest := path[1..];
      assert IsPath(g, rest) by {
        forall i | 0 <= i < |rest| - 1 ensures rest[i] in g && rest[i + 1] in g[rest[i]] {
          assert path[i + 1] in g && path[i + 2] in g[path[i + 1]];
        }
      }
      PathGoesBack(g, order, rest);
      assert path[0] in g && path[1] in g[path[0]];
    }
  }

  // ---------------------------------------------------------------------
  // Groups
  // ---------------------------------------------------------------------

  function GroupOf(groups: map<string, string>, name: string): string {
    if name in groups then groups[name] else "Core"
  }

  function EarlierGroup(groups: map<string, string>): (string, string) -> bool {
    (a, b) => Less(GroupOf(groups, a), GroupOf(groups, b))
  }

  ghost function FinalOrder(g: Graph, names: seq<string>, groups: map<string, string>): seq<string>
    requires WellFormed(g) && forall n :: n in names ==> n in g
  {
    Sort(TopologicalOrder(g, names), EarlierGroup(groups))
  }

  lemma {:induction false} EarlierGroupIsStrictWeak(groups: map<string, string>)
    ensures StrictWeak(EarlierGroup(groups))
    ensures forall a, b :: Tied(EarlierGroup(groups), a, b) <==> GroupOf(groups, a) == GroupOf(groups, b)
  {
    var before := EarlierGroup(groups);
    forall a, b
      ensures before(a, b) ==> !before(b, a)
      ensures Tied(before, a, b) <==> GroupOf(groups, a) == GroupOf(groups, b)
    {
      LessIsStrict(GroupOf(groups, a), GroupOf(groups, b));
      SelfNotLess(GroupOf(groups, a));
    }
    forall a, b, c | !before(a, b) && !before(b, c)
      ensures !before(a, c)
    {
      NotLessTransitive(GroupOf(groups, a), GroupOf(groups, b), GroupOf(groups, c));
    }
  }

  /** The final declaration order: every type exactly once; groups ascending and
      each in one piece; and within a group, dependencies in time. */
  lemma {:induction false} FinalOrderIsSafe(g: Graph, names: seq<string>, groups: map<string, string>)
    requires WellFormed(g) && forall n :: n in names <==> n in g
    ensures var order := FinalOrder(g, names, groups);
      && OnceEach(order, names)
      && (forall i, j :: 0 <= i < j < |order| ==> !Less(GroupOf(groups, order[j]), GroupOf(groups, order[i])))
      && (forall i, j, k :: 0 <= i < j < k < |order| && GroupOf(groups, order[i]) == GroupOf(groups, order[k])
            ==> GroupOf(groups, order[j]) == GroupOf(groups, order[i]))
      && (forall u, v :: u in g && v in g[u] && GroupOf(groups, u) == GroupOf(groups, v)
            ==> DeclaredInTime(g, order, u, v))
  {
    var topo, before := TopologicalOrder(g, names), EarlierGroup(groups);
    TopologicalOrderIsSafe(g, names);
    EarlierGroupIsStrictWeak(groups);
    SortIsStable(topo, before);
    DistinctPermutation(topo, Sort(topo, before));
    GroupsAreContiguous(Sort(topo, before), groups);
    forall u, v | u in g && v in g[u] && GroupOf(groups, u) == GroupOf(groups, v)
      ensures DeclaredInTime(g, FinalOrder(g, names, groups), u, v)
    {
      assert DeclaredInTime(g, topo, u, v);
      TiesKeepOrder(topo, v, u, before);
    }
  }

  lemma {:induction false} GroupsAreContiguous(order: seq<string>, groups: map<string, string>)
    requires Sorted(order, EarlierGroup(groups))
    ensures forall i, j :: 0 <= i < j < |order| ==> !Less(GroupOf(groups, order[j]), GroupOf(groups, order[i]))
    ensures forall i, j, k :: 0 <= i < j < k < |order| && GroupOf(groups, order[i]) == GroupOf(groups, order[k])
              ==> GroupOf(groups, order[j]) == GroupOf(groups, order[i])
  {
    var before := EarlierGroup(groups);
    forall i, j | 0 <= i < j < |order|
      ensures !Less(GroupOf(groups, order[j]), GroupOf(groups, order[i]))
    {
      assert !before(order[j], order[i]);
    }
    forall i, j, k | 0 <= i < j < k < |order| && GroupOf(groups, order[i]) == GroupOf(groups, order[k])
      ensures GroupOf(groups, order[j]) == GroupOf(groups, order[i])
    {
      LessIsStrict(GroupOf(groups, order[i]), GroupOf(groups, order[j]));
    }
  }

  // ---------------------------------------------------------------------
  // The generator's own procedures
  // ---------------------------------------------------------------------

  /** The dependencies of each name: the other names its schema mentions. */
  function Dependencies(names: seq<string>, schemas: map<string, Schema>): (g: Graph)
    ensures WellFormed(g) && forall n :: n in names <==> n in g
    ensures forall u, v :: u in g ==>
              (v in g[u] <==> v in names && v != u && u in schemas && v in CollectRefs(schemas[u]))
  {
    map n | n in names :: set r | r in CollectRefs(if n in schemas then schemas[n] else Missing) && r != n && r in names
  }

  /** The type `u` uses the type `v`. */
  ghost predicate Uses(names: seq<string>, schemas: map<string, Schema>, u: string, v: string) {
    u in names && v in names && u != v && u in schemas && '/' !in v && Mentions(schemas[u], v)
  }

  /** `from` leads to `to` by zero or more uses. */
  ghost predicate LeadsTo(names: seq<string>, schemas: map<string, Schema>, from: string, to: string) {
    exists path: seq<string> ::
      && path != [] && path[0] == from && path[|path| - 1] == to
      && forall i :: 0 <= i < |path| - 1 ==> Uses(names, schemas, path[i], path[i + 1])
  }

  /** The dependencies are the uses. */
  lemma {:induction false} DependenciesAreUses(names: seq<string>, schemas: map<string, Schema>)
    ensures var g := Dependencies(names, schemas);
      && (forall u, v :: u in g && v in g[u] <==> Uses(names, schemas, u, v))
      && (forall u, v :: Reaches(g, u, v) <==> LeadsTo(names, schemas, u, v))
  {
    var g := Dependencies(names, schemas);
    forall u, v ensures u in g && v in g[u] <==> Uses(names, schemas, u, v) {
      if u in schemas {
        CollectsMentions(schemas[u], v);
      }
    }
    hide Uses, Dependencies;
    forall u, v ensures Reaches(g, u, v) <==> LeadsTo(names, schemas, u, v) {
      if Reaches(g, u, v) {
        var path :| IsPath(g, path) && path[0] == u && path[|path| - 1] == v;
        assert path != [] && forall i :: 0 <= i < |path| - 1 ==> Uses(names, schemas, path[i], path[i + 1]);
      }
      if LeadsTo(names, schemas, u, v) {
        var path :| path != [] && path[0] == u && path[|path| - 1] == v
                    && forall i :: 0 <= i < |path| - 1 ==> Uses(names, schemas, path[i], path[i + 1]);
        forall i | 0 <= i < |path| - 1 ensures path[i] in g && path[i + 1] in g[path[i]] {
          assert Uses(names, schemas, path[i], path[i + 1]);
        }
        assert IsPath(g, path);
      }
    }
  }

  /** The state the recursive closure `visit` shares. */
  class TopologicalSorter {
    const deps: Graph
    var visited: set<string>
    var visiting: set<string>
    var sorted: seq<string>

    constructor (deps: Graph)
      ensures this.deps == deps && visited == {} && visiting == {} && sorted == []
    {
      this.deps := deps;
      visited, visiting, sorted := {}, {}, [];
    }

    method VisitName(name: string)
      requires WellFormed(deps) && visiting <= deps.Keys && name in deps && visiting !! visited
      modifies this`visited, this`visiting, this`sorted
      ensures Search(visited, sorted) == Visit(deps, old(visiting), old(Search(visited, sorted)), name)
      ensures visiting == old(visiting) && visiting !! visited
      decreases |deps.Keys - visiting|
    {
      if name in visited {
        return;
      }
      if name in visiting {
        return;
      }
      visiting := visiting + {name};
      assert deps.Keys - visiting == (deps.Keys - old(visiting)) - {name};
      var sortedDeps := SortStrings(deps[name]);
      hide VisitAll;
      ghost var goal := VisitAll(deps, visiting, Search(visited, sorted), sortedDeps);
      for i := 0 to |sortedDeps|
        invariant visiting == old(visiting) + {name} && visiting !! visited
        invariant VisitAll(deps, visiting, Search(visited, sorted), sortedDeps[i..]) == goal
      {
        assert sortedDeps[i] in deps;
        VisitName(sortedDeps[i]);
      }
      visiting := visiting - {name};
      visited := visited + {name};
      sorted := sorted + [name];
    }
  }

  method SortStrings(names: set<string>) returns (list: seq<string>)
    ensures list == SortedList(names)
    ensures forall e :: e in list <==> e in names
    ensures forall i, j :: 0 <= i < j < |list| ==> Less(list[i], list[j])
  {
    list := [];
    var rest := names;
    while rest != {}
      invariant rest <= names
      invariant forall e :: e in list <==> e in names - rest
      invariant forall i, j :: 0 <= i < j < |list| ==> list[i] != list[j]
      decreases rest
    {
      var e :| e in rest;
      assert e !in list;
      list := list + [e];
      rest := rest - {e};
    }
    SortLists(list, names);
    list := Sort(list, Less);
    ListsUnique(list, SortedList(names), names);
  }

  method TopologicalSort(names: seq<string>, schemas: map<string, Schema>) returns (sorted: seq<string>)
    ensures sorted == TopologicalOrder(Dependencies(names, schemas), names)
    ensures forall n :: n in sorted <==> n in names
    ensures forall i, j :: 0 <= i < j < |sorted| ==> sorted[i] != sorted[j]
    ensures forall u, v :: Uses(names, schemas, u, v) ==> Precedes(sorted, v, u) || LeadsTo(names, schemas, v, u)
  {
    var deps := Dependencies(names, schemas);
    var sorter := new TopologicalSorter(deps);
    for i := 0 to |names|
      invariant sorter.deps == deps && sorter.visiting == {}
      invariant VisitAll(deps, {}, Search(sorter.visited, sorter.sorted), names[i..]).sorted
             == TopologicalOrder(deps, names)
    {
      assert names[i] in names;
      assert names[i..][0] == names[i] && names[i..][1..] == names[i + 1..];
      sorter.VisitName(names[i]);
    }
    sorted := sorter.sorted;
    TopologicalOrderIsSafe(deps, names);
    DependenciesAreUses(names, schemas);
  }

  lemma {:induction false} FinalOrderMeaning(
    names: seq<string>, schemas: map<string, Schema>, groups: map<string, string>)
    ensures var order := FinalOrder(Dependencies(names, schemas), names, groups);
      && (forall n :: n in order <==> n in names)
      && (forall i, j :: 0 <= i < j < |order| ==> order[i] != order[j])
      && (forall i, j :: 0 <= i < j < |order| ==>
            var a := if order[i] in groups then groups[order[i]] else "Core";
            var b := if order[j] in groups then groups[order[j]] else "Core";
            a == b || Less(a, b))
      && (forall u, v :: Uses(names, schemas, u, v) ==>
            var a, b := if u in groups then groups[u] else "Core", if v in groups then groups[v] else "Core";
            a == b ==> Precedes(order, v, u) || LeadsTo(names, schemas, v, u))
  {
    var g := Dependencies(names, schemas);
    FinalOrderIsSafe(g, names, groups);
    DependenciesAreUses(names, schemas);
    hide Dependencies, FinalOrder, WellFormed, Less, Precedes, Reaches, LeadsTo, Uses;
    var order := FinalOrder(g, names, groups);
    forall i, j | 0 <= i < j < |order|
      ensures GroupOf(groups, order[i]) == GroupOf(groups, order[j])
              || Less(GroupOf(groups, order[i]), GroupOf(groups, order[j]))
    {
      LessIsStrict(GroupOf(groups, order[i]), GroupOf(groups, order[j]));
    }
    forall u, v | Uses(names, schemas, u, v) && GroupOf(groups, u) == GroupOf(groups, v)
      ensures Precedes(order, v, u) || LeadsTo(names, schemas, v, u)
    {
      assert DeclaredInTime(g, order, u, v);
    }
  }

  /** "Core" stands among the group names in byte order: the ungrouped types come
      first exactly if every other group of a type sorts after "Core". */
  lemma {:induction false} CoreComesFirstIff(
    names: seq<string>, schemas: map<string, Schema>, groups: map<string, string>)
    ensures var order := FinalOrder(Dependencies(names, schemas), names, groups);
      (forall i, j :: 0 <= i < j < |order| && order[j] !in groups ==>
         order[i] !in groups || groups[order[i]] == "Core")
      <==> forall u, v :: u in names && v in names && u !in groups && v in groups ==>
             groups[v] == "Core" || Less("Core", groups[v])
  {
    var order := FinalOrder(Dependencies(names, schemas), names, groups);
    FinalOrderMeaning(names, schemas, groups);
    hide FinalOrder, Dependencies, Less, Uses, LeadsTo, Precedes;
    forall i, j | 0 <= i < |order| && 0 <= j < |order| && order[j] !in groups && order[i] in groups
      ensures i < j ==> groups[order[i]] == "Core" || Less(groups[order[i]], "Core")
      ensures j < i ==> groups[order[i]] == "Core" || Less("Core", groups[order[i]])
      ensures !(Less("Core", groups[order[i]]) && Less(groups[order[i]], "Core"))
    {
      LessIsStrict("Core", groups[order[i]]);
    }
    if forall i, j :: 0 <= i < j < |order| && order[j] !in groups ==>
         order[i] !in groups || groups[order[i]] == "Core"
    {
      forall u, v | u in names && v in names && u !in groups && v in groups
        ensures groups[v] == "Core" || Less("Core", groups[v])
      {
        var j :| 0 <= j < |order| && order[j] == u;
        var i :| 0 <= i < |order| && order[i] == v;
      }
    }
  }

  /** An account type is declared before an ungrouped one. */
  lemma {:induction false} CoreCanComeLater()
    returns (names: seq<string>, schemas: map<string, Schema>, groups: map<string, string>)
    ensures names == ["Order", "Limits"] && groups == map["Limits" := "Account"]
    ensures FinalOrder(Dependencies(names, schemas), names, groups) == ["Limits", "Order"]
  {
    names, schemas, groups := ["Order", "Limits"], map[], map["Limits" := "Account"];
    var order := FinalOrder(Dependencies(names, schemas), names, groups);
    FinalOrderMeaning(names, schemas, groups);
    hide FinalOrder, Dependencies, Uses, LeadsTo, Precedes;
    assert !Less("Core", "Account") && "Order" in names && "Limits" in names;
    assert Less("Limits", "Order");
    hide Less;
    PairInOrder(order, "Limits", "Order");
  }

  lemma {:induction false} PairInOrder(order: seq<string>, a: string, b: string)
    requires Less(a, b) && forall n :: n in order <==> n == a || n == b
    requires forall i, j :: 0 <= i < j < |order| ==> order[i] != order[j] && !(order[i] == b && order[j] == a)
    ensures order == [a, b]
  {
    assert forall k :: 0 <= k < |order| ==> order[k] in order;
    ListsUnique(order, [a, b], {a, b});
  }

  /** The order in which the generator declares object types. */
  method DeclarationOrder(names: seq<string>, schemas: map<string, Schema>, groups: map<string, string>)
    returns (order: seq<string>)
    ensures order == FinalOrder(Dependencies(names, schemas), names, groups)
    ensures forall n :: n in order <==> n in names
    ensures forall i, j :: 0 <= i < j < |order| ==> order[i] != order[j]
    ensures forall i, j :: 0 <= i < j < |order| ==>
              var a := if order[i] in groups then groups[order[i]] else "Core";
              var b := if order[j] in groups then groups[order[j]] else "Core";
              a == b || Less(a, b)
    ensures forall u, v :: Uses(names, schemas, u, v) ==>
              var a, b := if u in groups then groups[u] else "Core", if v in groups then groups[v] else "Core";
              a == b ==> Precedes(order, v, u) || LeadsTo(names, schemas, v, u)
  {
    var sorted := TopologicalSort(names, schemas);
    order := Sort(sorted, EarlierGroup(groups));
    FinalOrderMeaning(names, schemas, groups);
  }
}
