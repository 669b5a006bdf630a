/**
 Which targets an admitted frame is bound to (`_bind_processing_work_item` of
 aismixer.py), over every run of the pipeline, said on zones, routes and target
 numbers alone.
 */
module PipelineRouting {
  import opened Common
  import opened Routing
  import opened ProcessingQueue
  import opened Pipeline

  // -------------------------------------------------------------- places in the routes

  /** The k-th target of the i-th route is this one, and the zone of the route holds the source. */
  predicate NamedAt(source: string, zones: ResolvedZones, routes: seq<Route>, t: string, i: int, k: int) {
    && 0 <= i < |routes| && routes[i].fromZone in zones && source in zones[routes[i].fromZone]
    && 0 <= k < |routes[i].to| && routes[i].to[k] == t
  }

  /** Some route whose zone holds the source names the target. */
  predicate Named(source: string, zones: ResolvedZones, routes: seq<Route>, t: string) {
    exists i: nat, k: nat :: i < |routes| && k < |routes[i].to| && NamedAt(source, zones, routes, t, i, k)
  }

  /** Earlier route, or earlier in the same route. */
  predicate Earlier(i: int, k: int, j: int, l: int) {
    i < j || (i == j && k < l)
  }

  /** The target is named at a place before all places of the other one. */
  predicate NamedFirst(source: string, zones: ResolvedZones, routes: seq<Route>, t: string, u: string) {
    exists i: nat, k: nat :: i < |routes| && k < |routes[i].to|
      && NamedAt(source, zones, routes, t, i, k) && Leads(source, zones, routes, i, k, u)
  }

  predicate Leads(source: string, zones: ResolvedZones, routes: seq<Route>, i: int, k: int, u: string) {
    forall j: nat, l: nat :: j < |routes| && l < |routes[j].to| && NamedAt(source, zones, routes, u, j, l) ==>
      Earlier(i, k, j, l)
  }

  /** Where the p-th collected target stands. */
  function Place(source: string, zones: ResolvedZones, routes: seq<Route>, p: int): (int, int)
    requires KnownZones(zones, routes)
  {
    if routes == [] then (0, p)
    else
      var n := |routes| - 1;
      var before := |MatchingTargets(source, zones, routes[..n])|;
      if p < before then Place(source, zones, routes[..n], p) else (n, p - before)
  }

  lemma {:induction false} PlaceIsNamed(source: string, zones: ResolvedZones, routes: seq<Route>, p: nat)
    requires KnownZones(zones, routes) && p < |MatchingTargets(source, zones, routes)|
    ensures var (i, k) := Place(source, zones, routes, p);
            NamedAt(source, zones, routes, MatchingTargets(source, zones, routes)[p], i, k)
    decreases |routes|
  {
    var n := |routes| - 1;
    if p < |MatchingTargets(source, zones, routes[..n])| {
      PlaceIsNamed(source, zones, routes[..n], p);
    }
  }

  /** Every named target is collected at its place. */
  lemma {:induction false} NamedIsCollected(
    source: string, zones: ResolvedZones, routes: seq<Route>, t: string, i: nat, k: nat) returns (p: nat)
    requires KnownZones(zones, routes) && NamedAt(source, zones, routes, t, i, k)
    ensures p < |MatchingTargets(source, zones, routes)| && MatchingTargets(source, zones, routes)[p] == t
    ensures Place(source, zones, routes, p) == (i, k)
    decreases |routes|
  {
    var n := |routes| - 1;
    if i < n {
      p := NamedIsCollected(source, zones, routes[..n], t, i, k);
    } else {
      p := |MatchingTargets(source, zones, routes[..n])| + k;
    }
  }

  lemma {:induction false} PlacesAscend(source: string, zones: ResolvedZones, routes: seq<Route>, p: nat, q: nat)
    requires KnownZones(zones, routes) && p < q < |MatchingTargets(source, zones, routes)|
    ensures var (i, k) := Place(source, zones, routes, p);
            var (j, l) := Place(source, zones, routes, q);
            Earlier(i, k, j, l)
    decreases |routes|
  {
    var n := |routes| - 1;
    var before := |MatchingTargets(source, zones, routes[..n])|;
    if q < before {
      PlacesAscend(source, zones, routes[..n], p, q);
    } else if p < before {
      PlaceIsNamed(source, zones, routes[..n], p);
    }
  }

  lemma CollectedAreNamed(source: string, zones: ResolvedZones, routes: seq<Route>, t: string)
    requires KnownZones(zones, routes)
    ensures t in MatchingTargets(source, zones, routes) <==> Named(source, zones, routes, t)
  {
    hide MatchingTargets, Place;
    var all := MatchingTargets(source, zones, routes);
    if t in all {
      PlaceIsNamed(source, zones, routes, IndexOf(all, t));
      var (i, k) := Place(source, zones, routes, IndexOf(all, t));
      assert NamedAt(source, zones, routes, t, i, k);
    }
    if Named(source, zones, routes, t) {
      var i: nat, k: nat :| i < |routes| && k < |routes[i].to| && NamedAt(source, zones, routes, t, i, k);
      var p := NamedIsCollected(source, zones, routes, t, i, k);
    }
  }

  lemma FirstIsNamedFirst(source: string, zones: ResolvedZones, routes: seq<Route>, t: string, u: string)
    requires KnownZones(zones, routes)
    requires var all := MatchingTargets(source, zones, routes);
             t in all && u in all && IndexOf(all, t) < IndexOf(all, u)
    ensures NamedFirst(source, zones, routes, t, u)
  {
    hide MatchingTargets, Place, Earlier;
    var all := MatchingTargets(source, zones, routes);
    var p := IndexOf(all, t);
    PlaceIsNamed(source, zones, routes, p);
    var (i, k) := Place(source, zones, routes, p);
    forall j: nat, l: nat | j < |routes| && l < |routes[j].to| && NamedAt(source, zones, routes, u, j, l)
      ensures Earlier(i, k, j, l)
    {
      var q := NamedIsCollected(source, zones, routes, u, j, l);
      PlacesAscend(source, zones, routes, p, q);
    }
    assert Leads(source, zones, routes, i, k, u);
    assert NamedAt(source, zones, routes, t, i, k);
  }

  // ------------------------------------------------------------------- bound targets

  /** The numeric plan is the routes with the sources of their zones and the numbers of their targets. */
  predicate CompiledWith(table: RoutingTable, ids: map<string, int>) {
    && Injective(ids) && KnownZones(table.zones, table.routes) && AllTargetsKnown(table.routes, ids)
    && table.plan.Some? && |table.plan.value| == |table.routes|
    && (forall i :: 0 <= i < |table.routes| ==> CompiledFrom(table.plan.value[i], table.routes[i], table.zones, ids))
  }

  predicate CompiledFrom(c: CompiledRoute, route: Route, zones: ResolvedZones, ids: map<string, int>) {
    && route.fromZone in zones && c.sources == zones[route.fromZone]
    && |c.targets| == |route.to|
    && forall k :: 0 <= k < |route.to| ==> route.to[k] in ids && c.targets[k] == ids[route.to[k]]
  }

  /** Each target that the routes name for this source, once, in the order in which they are first named. */
  ghost predicate RoutedTo(targets: seq<int>, source: string, table: RoutingTable, ids: map<string, int>) {
    && (forall t :: Named(source, table.zones, table.routes, t) ==> t in ids && ids[t] in targets)
    && (forall a :: 0 <= a < |targets| ==> NumberOfNamed(targets[a], source, table, ids))
    && (forall a, b :: 0 <= a < b < |targets| ==>
          targets[a] != targets[b] && InRouteOrder(targets[a], targets[b], source, table, ids))
  }

  ghost predicate NumberOfNamed(id: int, source: string, table: RoutingTable, ids: map<string, int>) {
    exists t :: Named(source, table.zones, table.routes, t) && t in ids && ids[t] == id
  }

  ghost predicate InRouteOrder(id: int, other: int, source: string, table: RoutingTable, ids: map<string, int>) {
    exists t, u :: t in ids && u in ids && ids[t] == id && ids[u] == other
      && NamedFirst(source, table.zones, table.routes, t, u)
  }

  lemma PlanIsCompiled(table: RoutingTable, ids: map<string, int>)
    requires CompiledWith(table, ids)
    ensures table.plan.value == Plan(table.zones, table.routes, ids)
  {
    var plan := Plan(table.zones, table.routes, ids);
    forall i | 0 <= i < |plan| ensures table.plan.value[i] == plan[i] {
      assert CompiledFrom(table.plan.value[i], table.routes[i], table.zones, ids);
      assert table.plan.value[i].targets == plan[i].targets;
    }
  }

  /** What `CompileTargetIds` returns is compiled with the numbers it was given. */
  lemma CompilationCompiles(table: RoutingTable, ids: map<string, int>)
    requires Injective(ids) && KnownZones(table.zones, table.routes) && AllTargetsKnown(table.routes, ids)
    requires table.plan == Some(Plan(table.zones, table.routes, ids))
    ensures CompiledWith(table, ids)
  {
  }

  lemma MatchIsRoutedTo(source: string, table: RoutingTable, ids: map<string, int>)
    requires CompiledWith(table, ids)
    ensures RoutedTo(FirstOccurrences(PlannedTargets(source, table.plan.value)), source, table, ids)
  {
    hide FirstOccurrences, MatchingTargets, PlannedTargets, Named, NamedFirst, Plan;
    var (zones, routes) := (table.zones, table.routes);
    var all := MatchingTargets(source, zones, routes);
    var names := FirstOccurrences(all);
    PlanIsCompiled(table, ids);
    PlanRefinesNames(source, zones, routes, ids);
    FirstOccurrencesMeans(all);
    var targets := FirstOccurrences(PlannedTargets(source, table.plan.value));
    assert |targets| == |names| && forall a :: 0 <= a < |targets| ==> targets[a] == ids[names[a]];
    forall t | Named(source, zones, routes, t) ensures t in ids && ids[t] in targets {
      CollectedAreNamed(source, zones, routes, t);
      assert targets[IndexOf(names, t)] == ids[t];
    }
    forall a | 0 <= a < |targets| ensures NumberOfNamed(targets[a], source, table, ids) {
      CollectedAreNamed(source, zones, routes, names[a]);
      assert ids[names[a]] == targets[a];
    }
    forall a, b | 0 <= a < b < |targets|
      ensures targets[a] != targets[b] && InRouteOrder(targets[a], targets[b], source, table, ids)
    {
      FirstIsNamedFirst(source, zones, routes, names[a], names[b]);
      assert names[a] != names[b] && ids[names[a]] == targets[a] && ids[names[b]] == targets[b];
    }
  }

  // ------------------------------------------------------------------------ over runs

  /** Without routing the frame goes to all targets, with it to the targets of its routes. */
  ghost predicate BoundAs(item: WorkItem, table: Option<RoutingTable>, legacy: seq<int>) {
    if table.None? then !item.perTarget && item.targets == legacy
    else
      && item.perTarget
      && forall ids :: CompiledWith(table.value, ids) ==> RoutedTo(item.targets, item.frame.source, table.value, ids)
  }

  predicate AllPlanned(snapshots: seq<Snapshot>) {
    forall g :: 0 <= g < |snapshots| ==> snapshots[g].table.Some? ==> snapshots[g].table.value.plan.Some?
  }

  lemma BindMeans(frame: Frame, reader: nat, s: Snapshot, legacy: seq<int>)
    requires s.table.Some? ==> s.table.value.plan.Some?
    ensures var item := Bind(frame, reader, s, legacy);
            item.frame == frame && item.reader == reader && item.generation == s.generation
            && BoundAs(item, s.table, legacy)
  {
    hide RoutedTo, CompiledWith, FirstOccurrences, PlannedTargets;
    if s.table.Some? {
      forall ids | CompiledWith(s.table.value, ids)
        ensures RoutedTo(Bind(frame, reader, s, legacy).targets, frame.source, s.table.value, ids)
      {
        CompiledHasPlan(s.table.value, ids);
        MatchIsRoutedTo(frame.source, s.table.value, ids);
      }
    }
  }

  lemma CompiledHasPlan(table: RoutingTable, ids: map<string, int>)
    requires CompiledWith(table, ids)
    ensures table.plan.Some?
  {
  }

  /**
   What one step does to the routing: an admission binds one frame to the
   routing in force at that step, not at an earlier one, and only an accepted
   replacement changes the routing.
   */
  lemma AdmissionUsesPresentRouting<P, R, O>(setup: Setup<P, R, O>, s: State<P, R, O>, e: Event<R>)
    requires Can(setup, s, e)
    ensures var (f, g) := (s.front, Step(setup, s, e).front);
            && (g.admitted != f.admitted ==>
                  && |g.admitted| == |f.admitted| + 1 && g.admitted[..|f.admitted|] == f.admitted
                  && g.admitted[|f.admitted|].generation == f.routing.generation
                  && g.snapshots == f.snapshots)
            && (g.routing != f.routing || g.snapshots != f.snapshots ==>
                  && e.Replace? && (e.table.Some? ==> e.table.value.plan.Some?)
                  && (e.expected.Some? ==> e.expected.value == f.routing.generation)
                  && g.routing == Snapshot(f.routing.generation + 1, e.table) && g.snapshots == f.snapshots + [g.routing])
            && (e.Replace? && (e.table.Some? ==> e.table.value.plan.Some?)
                && (e.expected.Some? ==> e.expected.value == f.routing.generation) ==>
                  g.routing == Snapshot(f.routing.generation + 1, e.table))
  {
    hide Put, AdmitNow, Suspend, Resumed, Taken, Locked, Serving;
    BindFieldsAreGiven(s.front, setup.legacy);
    hide Bind;
  }

  lemma BindFieldsAreGiven(f: Front, legacy: seq<int>)
    ensures forall frame, r :: Bind(frame, r, f.routing, legacy).generation == f.routing.generation
  {
  }

  lemma {:induction false} SnapshotsHavePlans<P, R, O>(
    setup: Setup<P, R, O>, inputs: nat, table: Option<RoutingTable>, events: seq<Event<R>>)
    requires Feasible(setup, Start(setup, inputs, table), events)
    requires table.Some? ==> table.value.plan.Some?
    ensures AllPlanned(Run(setup, Start(setup, inputs, table), events).front.snapshots)
  {
    hide Can, Step;
    if events != [] {
      var before := events[..|events| - 1];
      SnapshotsHavePlans(setup, inputs, table, before);
      AdmissionUsesPresentRouting(setup, Run(setup, Start(setup, inputs, table), before), events[|events| - 1]);
    }
  }

  /**
   In every run: an item goes to all targets if the routing it was bound to has no
   table, and otherwise to exactly the targets its routes name.
   */
  lemma AdmittedAreRouted<P, R, O>(
    setup: Setup<P, R, O>, inputs: nat, table: Option<RoutingTable>, events: seq<Event<R>>, j: nat)
    requires Feasible(setup, Start(setup, inputs, table), events)
    requires table.Some? ==> table.value.plan.Some?
    requires j < |Run(setup, Start(setup, inputs, table), events).front.admitted|
    ensures var f := Run(setup, Start(setup, inputs, table), events).front;
            var item := f.admitted[j];
            && item.generation < |f.snapshots| && f.snapshots[item.generation].generation == item.generation
            && BoundAs(item, f.snapshots[item.generation].table, setup.legacy)
  {
    hide Can, Step, OrderKept, Balanced, NoLostWakeup, LineUp, BackSafe, QueueIsRest, Bind, BoundAs;
    EveryRunIsSafe(setup, inputs, table, events);
    SnapshotsHavePlans(setup, inputs, table, events);
    var f := Run(setup, Start(setup, inputs, table), events).front;
    var item := f.admitted[j];
    BindMeans(item.frame, item.reader, f.snapshots[item.generation], setup.legacy);
  }
}
