/**
 Route matching (core/routing.py, core/target_identity.py): the descriptive
 matcher over target names, the numeric plan compiled from it, and why both name
 the same targets in the same order.
 */
module Routing {
  import opened Common

  // ------------------------------------------------------------------ first occurrences

  /** The elements in the order of their first occurrence. */
  function FirstOccurrences<T(==)>(s: seq<T>): seq<T> {
    if s == [] then []
    else
      var (init, last) := (s[..|s| - 1], s[|s| - 1]);
      if last in init then FirstOccurrences(init) else FirstOccurrences(init) + [last]
  }

  lemma FirstOccurrencesStep<T>(s: seq<T>, x: T)
    ensures FirstOccurrences(s + [x]) == if x in s then FirstOccurrences(s) else FirstOccurrences(s) + [x]
  {
    assert (s + [x])[..|s|] == s;
  }

  /** No repeats, the same elements, and each in the place of its first occurrence. */
  lemma {:induction false} FirstOccurrencesMeans<T>(s: seq<T>)
    ensures var f := FirstOccurrences(s);
            && (forall x :: x in f <==> x in s)
            && (forall i, j :: 0 <= i < j < |f| ==> f[i] != f[j])
            && (forall i, j :: 0 <= i < j < |f| ==> f[i] in s && f[j] in s && IndexOf(s, f[i]) < IndexOf(s, f[j]))
  {
    if s != [] {
      var (init, last) := (s[..|s| - 1], s[|s| - 1]);
      FirstOccurrencesMeans(init);
      assert s == init + [last];
      var (f, g) := (FirstOccurrences(s), FirstOccurrences(init));
      assert forall x :: x in f <==> x in s;
      forall x | x in init ensures IndexOf(s, x) == IndexOf(init, x) < |init| { IndexInPrefix(init, last, x); }
      if last !in init { IndexOfLast(init, last); }
    }
  }

  lemma {:induction false} IndexInPrefix<T>(init: seq<T>, last: T, x: T)
    requires x in init
    ensures IndexOf(init + [last], x) == IndexOf(init, x)
  {
    if init[0] != x {
      assert (init + [last])[1..] == init[1..] + [last];
      IndexInPrefix(init[1..], last, x);
    }
  }

  lemma {:induction false} IndexOfLast<T>(init: seq<T>, last: T)
    requires last !in init
    ensures IndexOf(init + [last], last) == |init|
  {
    var s := init + [last];
    var i := IndexOf(s, last);
    assert forall k :: 0 <= k < |init| ==> s[k] == init[k] && init[k] in init;
  }

  function Mapped<T, U>(f: map<T, U>, s: seq<T>): seq<U>
    requires forall x :: x in s ==> x in f
  {
    seq(|s|, i requires 0 <= i < |s| => f[s[i]])
  }

  predicate Injective<T(!new), U(==)>(f: map<T, U>) {
    forall x, y :: x in f && y in f && f[x] == f[y] ==> x == y
  }

  lemma {:induction false} SameElements<T>(s: seq<T>)
    ensures forall x :: x in FirstOccurrences(s) <==> x in s
  {
    if s != [] {
      SameElements(s[..|s| - 1]);
      assert s == s[..|s| - 1] + [s[|s| - 1]];
    }
  }

  lemma ImageMembership<T(!new), U>(f: map<T, U>, s: seq<T>, x: T)
    requires Injective(f) && x in f && forall y :: y in s ==> y in f
    ensures f[x] in Mapped(f, s) <==> x in s
  {
    var images := Mapped(f, s);
    if x in s { assert images[IndexOf(s, x)] == f[x]; }
    if f[x] in images { assert f[s[IndexOf(images, f[x])]] == f[x]; }
  }

  lemma MappedAppend<T(!new), U>(f: map<T, U>, s: seq<T>, x: T)
    requires x in f && forall y :: y in s ==> y in f
    ensures forall y :: y in s + [x] ==> y in f
    ensures Mapped(f, s + [x]) == Mapped(f, s) + [f[x]]
  {
  }

  /** Under an injective map, first occurrences of the images are the images of first occurrences. */
  lemma {:induction false} FirstOccurrencesOfImages<T(!new), U>(f: map<T, U>, s: seq<T>)
    requires Injective(f) && forall x :: x in s ==> x in f
    ensures forall x :: x in FirstOccurrences(s) ==> x in f
    ensures FirstOccurrences(Mapped(f, s)) == Mapped(f, FirstOccurrences(s))
  {
    SameElements(s);
    if s != [] {
      var (init, last) := (s[..|s| - 1], s[|s| - 1]);
      assert s == init + [last];
      FirstOccurrencesOfImages(f, init);
      ImageMembership(f, init, last);
      MappedAppend(f, init, last);
      FirstOccurrencesStep(init, last);
      FirstOccurrencesStep(Mapped(f, init), f[last]);
      hide FirstOccurrences, Mapped, Injective;
      if last !in init {
        MappedAppend(f, FirstOccurrences(init), last);
      }
    }
  }

  // ---------------------------------------------------------------------- identities

  datatype IdentityError = EmptyName | NegativeId(name: string) | SharedId(id: int, first: string, second: string)

  /** The items of a mapping from names to numbers, in iteration order. */
  type Items = seq<(string, int)>

  predicate DistinctNames(items: Items) {
    forall i, j :: 0 <= i < j < |items| ==> items[i].0 != items[j].0
  }

  predicate DistinctIds(items: Items) {
    forall i, j :: 0 <= i < j < |items| ==> items[i].1 != items[j].1
  }

  predicate Acceptable(items: Items) {
    (forall i :: 0 <= i < |items| ==> items[i].0 != "" && items[i].1 >= 0) && DistinctIds(items)
  }

  /** `freeze_target_id_by_name`: accepts exactly injective mappings of non-empty names to non-negative numbers. */
  method FreezeTargetIds(items: Items) returns (r: Result<map<string, int>, IdentityError>)
    requires DistinctNames(items)
    ensures r.Ok? <==> Acceptable(items)
    ensures r.Ok? ==>
              && Injective(r.value)
              && (forall name :: name in r.value <==> exists i :: 0 <= i < |items| && items[i].0 == name)
              && (forall i :: 0 <= i < |items| ==> items[i].0 in r.value && r.value[items[i].0] == items[i].1)
  {
    var copied: map<string, int> := map[];
    var nameById: map<int, string> := map[];
    for k := 0 to |items|
      invariant Acceptable(items[..k])
      invariant forall i :: 0 <= i < k ==> items[i].0 in copied && copied[items[i].0] == items[i].1
      invariant forall name :: name in copied ==> exists i :: 0 <= i < k && items[i].0 == name
      invariant forall name :: name in copied ==> copied[name] in nameById && nameById[copied[name]] == name
      invariant forall id :: id in nameById ==> nameById[id] in copied && copied[nameById[id]] == id
    {
      var (name, id) := items[k];
      if name == "" {
        return Err(EmptyName);
      }
      if id < 0 {
        return Err(NegativeId(name));
      }
      if id in nameById {
        var i :| 0 <= i < k && items[i].0 == nameById[id];
        assert items[i].1 == items[k].1;
        return Err(SharedId(id, nameById[id], name));
      }
      forall i | 0 <= i < k ensures items[i].1 != id && items[i].0 != name { }
      assert items[..k + 1] == items[..k] + [items[k]];
      copied := copied[name := id];
      nameById := nameById[id := name];
    }
    assert items[..|items|] == items;
    r := Ok(copied);
  }

  // -------------------------------------------------------------------------- routes

  datatype Route = Route(name: string, fromZone: string, to: seq<string>)

  type ResolvedZones = map<string, set<string>>

  /** A route of the numeric plan: the sources of its zone, and its targets by number. */
  datatype CompiledRoute = CompiledRoute(sources: set<string>, targets: seq<int>)

  /** `RoutingTable`; the plan is there once targets have been compiled. */
  datatype RoutingTable = RoutingTable(zones: ResolvedZones, routes: seq<Route>, plan: Option<seq<CompiledRoute>>)

  predicate KnownZones(zones: ResolvedZones, routes: seq<Route>) {
    forall i :: 0 <= i < |routes| ==> routes[i].fromZone in zones
  }

  /** The names of all matching routes, and all their targets, with repeats. */
  function MatchingNames(source: string, zones: ResolvedZones, routes: seq<Route>): seq<string>
    requires KnownZones(zones, routes)
  {
    if routes == [] then []
    else
      var (init, last) := (routes[..|routes| - 1], routes[|routes| - 1]);
      MatchingNames(source, zones, init) + (if source in zones[last.fromZone] then [last.name] else [])
  }

  /** They are the names of the routes whose zone holds the source, in the order of the routes. */
  lemma {:induction false} MatchingNamesMeans(source: string, zones: ResolvedZones, routes: seq<Route>)
    returns (places: seq<nat>)
    requires KnownZones(zones, routes)
    ensures |places| == |MatchingNames(source, zones, routes)|
    ensures forall k :: 0 <= k < |places| ==>
              places[k] < |routes| && MatchingNames(source, zones, routes)[k] == routes[places[k]].name
    ensures forall k, j :: 0 <= k < j < |places| ==> places[k] < places[j]
    ensures forall i :: 0 <= i < |routes| ==> (i in places <==> source in zones[routes[i].fromZone])
  {
    places := [];
    if routes != [] {
      var n := |routes| - 1;
      places := MatchingNamesMeans(source, zones, routes[..n]);
      assert forall i :: 0 <= i < n ==> routes[..n][i] == routes[i];
      assert forall k :: 0 <= k < |places| ==> places[k] < n;
      if source in zones[routes[n].fromZone] {
        places := places + [n];
      }
    }
  }

  function MatchingTargets(source: string, zones: ResolvedZones, routes: seq<Route>): seq<string>
    requires KnownZones(zones, routes)
  {
    if routes == [] then []
    else
      var (init, last) := (routes[..|routes| - 1], routes[|routes| - 1]);
      MatchingTargets(source, zones, init) + (if source in zones[last.fromZone] then last.to else [])
  }

  function PlannedTargets(source: string, plan: seq<CompiledRoute>): seq<int> {
    if plan == [] then []
    else
      var (init, last) := (plan[..|plan| - 1], plan[|plan| - 1]);
      PlannedTargets(source, init) + (if source in last.sources then last.targets else [])
  }

  function Members<T(==)>(s: seq<T>): set<T> {
    set x | x in s
  }

  lemma MembersStep<T>(s: seq<T>, x: T)
    ensures Members(s + [x]) == Members(s) + {x} && (x in Members(s) <==> x in s)
  {
    assert forall y :: y in s + [x] <==> y in s || y == x;
  }

  /** One route of either matcher: appends the targets not seen yet. */
  method AppendUnseen<T(==)>(targets: seq<T>, result: seq<T>, seen: set<T>, ghost before: seq<T>)
    returns (more: seq<T>, known: set<T>)
    requires result == FirstOccurrences(before) && seen == Members(before)
    ensures more == FirstOccurrences(before + targets) && known == Members(before + targets)
  {
    hide FirstOccurrences, Members;
    more, known := result, seen;
    assert before + targets[..0] == before;
    for i := 0 to |targets|
      invariant more == FirstOccurrences(before + targets[..i])
      invariant known == Members(before + targets[..i])
    {
      assert before + targets[..i + 1] == (before + targets[..i]) + [targets[i]];
      FirstOccurrencesStep(before + targets[..i], targets[i]);
      MembersStep(before + targets[..i], targets[i]);
      if targets[i] !in known {
        known := known + {targets[i]};
        more := more + [targets[i]];
      }
    }
    assert before + targets[..|targets|] == before + targets;
  }

  /** `match_routes`; fails at the first route from an unknown zone. */
  method MatchRoutes(source: string, zones: ResolvedZones, routes: seq<Route>)
    returns (r: Result<(seq<string>, seq<string>), string>)
    ensures r.Ok? <==> KnownZones(zones, routes)
    ensures r.Ok? ==>
              && r.value.0 == MatchingNames(source, zones, routes)
              && r.value.1 == FirstOccurrences(MatchingTargets(source, zones, routes))
  {
    var names: seq<string> := [];
    var targets: seq<string> := [];
    var seen: set<string> := {};
    for i := 0 to |routes|
      invariant KnownZones(zones, routes[..i])
      invariant names == MatchingNames(source, zones, routes[..i])
      invariant targets == FirstOccurrences(MatchingTargets(source, zones, routes[..i]))
      invariant seen == Members(MatchingTargets(source, zones, routes[..i]))
    {
      var route := routes[i];
      if route.fromZone !in zones {
        return Err(route.name);
      }
      ghost var before := MatchingTargets(source, zones, routes[..i]);
      assert routes[..i + 1][..i] == routes[..i];
      if source !in zones[route.fromZone] {
        assert before + [] == before && names + [] == names;
        continue;
      }
      names := names + [route.name];
      targets, seen := AppendUnseen(route.to, targets, seen, before);
    }
    assert routes[..|routes|] == routes;
    r := Ok((names, targets));
  }

  /** `match_target_ids`; fails without a compiled plan. */
  method MatchTargetIds(table: RoutingTable, source: string) returns (r: Option<seq<int>>)
    ensures r.Some? <==> table.plan.Some?
    ensures r.Some? ==> r.value == FirstOccurrences(PlannedTargets(source, table.plan.value))
  {
    if table.plan.None? {
      return None;
    }
    var plan := table.plan.value;
    var targets: seq<int> := [];
    var seen: set<int> := {};
    for i := 0 to |plan|
      invariant targets == FirstOccurrences(PlannedTargets(source, plan[..i]))
      invariant seen == Members(PlannedTargets(source, plan[..i]))
    {
      ghost var before := PlannedTargets(source, plan[..i]);
      assert plan[..i + 1][..i] == plan[..i];
      if source !in plan[i].sources {
        assert before + [] == before;
        continue;
      }
      targets, seen := AppendUnseen(plan[i].targets, targets, seen, before);
    }
    assert plan[..|plan|] == plan;
    r := Some(targets);
  }

  // ------------------------------------------------------------------- compilation

  datatype CompileError = BadIdentities(error: IdentityError) | UnknownTargets(names: set<string>)

  predicate AllTargetsKnown(routes: seq<Route>, ids: map<string, int>) {
    forall i :: 0 <= i < |routes| ==> forall t :: t in routes[i].to ==> t in ids
  }

  function UnknownNames(routes: seq<Route>, ids: map<string, int>): set<string> {
    set i, t | 0 <= i < |routes| && t in routes[i].to && t !in ids :: t
  }

  function Plan(zones: ResolvedZones, routes: seq<Route>, ids: map<string, int>): seq<CompiledRoute>
    requires KnownZones(zones, routes) && AllTargetsKnown(routes, ids)
  {
    seq(|routes|, i requires 0 <= i < |routes| =>
      CompiledRoute(zones[routes[i].fromZone], Mapped(ids, routes[i].to)))
  }

  /** `compile_target_ids`: the same table with the numeric plan, or every name that is missing. */
  method CompileTargetIds(table: RoutingTable, items: Items) returns (r: Result<RoutingTable, CompileError>)
    requires KnownZones(table.zones, table.routes) && DistinctNames(items)
    ensures r.Ok? <==>
              Acceptable(items) && forall i :: 0 <= i < |table.routes| ==>
                forall t :: t in table.routes[i].to ==> exists j :: 0 <= j < |items| && items[j].0 == t
    ensures r.Ok? ==>
              && r.value.zones == table.zones && r.value.routes == table.routes && r.value.plan.Some?
              && exists ids :: Injective(ids) && AllTargetsKnown(table.routes, ids)
                   && r.value.plan.value == Plan(table.zones, table.routes, ids)
                   && forall j :: 0 <= j < |items| ==> items[j].0 in ids && ids[items[j].0] == items[j].1
  {
    var frozen := FreezeTargetIds(items);
    if frozen.Err? {
      return Err(BadIdentities(frozen.error));
    }
    var ids := frozen.value;
    var unknown := UnknownNames(table.routes, ids);
    if unknown != {} {
      var t :| t in unknown;
      return Err(UnknownTargets(unknown));
    }
    forall i | 0 <= i < |table.routes| ensures forall t :: t in table.routes[i].to ==> t in ids {
      forall t | t in table.routes[i].to ensures t in ids {
        assert t !in ids ==> t in unknown;
      }
    }
    r := Ok(table.(plan := Some(Plan(table.zones, table.routes, ids))));
  }

  lemma MappedConcat(f: map<string, int>, a: seq<string>, b: seq<string>)
    requires forall x :: x in a + b ==> x in f
    ensures forall x :: x in a ==> x in a + b
    ensures forall x :: x in b ==> x in a + b
    ensures Mapped(f, a + b) == Mapped(f, a) + Mapped(f, b)
  {
    assert forall x :: x in a ==> x in a + b;
    assert forall x :: x in b ==> x in a + b;
  }

  /** The plan collects the numbers of the very targets the names collect. */
  lemma {:induction false} PlanCollectsTheSame(
    source: string, zones: ResolvedZones, routes: seq<Route>, ids: map<string, int>)
    requires KnownZones(zones, routes) && AllTargetsKnown(routes, ids)
    ensures forall t :: t in MatchingTargets(source, zones, routes) ==> t in ids
    ensures PlannedTargets(source, Plan(zones, routes, ids)) == Mapped(ids, MatchingTargets(source, zones, routes))
    decreases |routes|
  {
    if routes != [] {
      var (init, last) := (routes[..|routes| - 1], routes[|routes| - 1]);
      PlanCollectsTheSame(source, zones, init, ids);
      var plan := Plan(zones, routes, ids);
      assert plan[..|plan| - 1] == Plan(zones, init, ids);
      assert plan[|plan| - 1] == CompiledRoute(zones[last.fromZone], Mapped(ids, last.to));
      MappedConcat(ids, MatchingTargets(source, zones, init), if source in zones[last.fromZone] then last.to else []);
    }
  }

  /**
   For every source the numeric plan gives the numbers of the targets that the
   names give, in the same order and without repeats.
   */
  lemma PlanRefinesNames(source: string, zones: ResolvedZones, routes: seq<Route>, ids: map<string, int>)
    requires KnownZones(zones, routes) && AllTargetsKnown(routes, ids) && Injective(ids)
    ensures var names := FirstOccurrences(MatchingTargets(source, zones, routes));
            && (forall t :: t in names ==> t in ids)
            && FirstOccurrences(PlannedTargets(source, Plan(zones, routes, ids))) == Mapped(ids, names)
  {
    PlanCollectsTheSame(source, zones, routes, ids);
    FirstOccurrencesOfImages(ids, MatchingTargets(source, zones, routes));
  }
}
