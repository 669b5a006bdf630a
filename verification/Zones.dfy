/**
 Zone resolution (core/routing.py): a memoised depth-first evaluation of set
 expressions over named zones, with cycle detection.  It succeeds exactly when
 every zone has one expression, every reference is defined and no zone depends
 on itself; the result is then the one solution of the set equations.
 */
module Zones {
  import opened Common

  /** `ZoneDefinition`: exactly one of the four should be given. */
  datatype Definition = Definition(
    included: Option<seq<string>>, union: Option<seq<string>>,
    intersection: Option<seq<string>>, difference: Option<seq<string>>)

  type Definitions = map<string, Definition>

  type Zone = set<string>

  datatype Operation = Union | Intersection | Difference

  datatype Expression = Include(sources: seq<string>) | Combine(operation: Operation, zones: seq<string>)

  function Given(o: Option<seq<string>>): nat {
    if o.Some? then 1 else 0
  }

  /** `_zone_expression`. */
  function ExpressionOf(d: Definition): Option<Expression> {
    if Given(d.included) + Given(d.union) + Given(d.intersection) + Given(d.difference) != 1 then None
    else if d.included.Some? then Some(Include(d.included.value))
    else if d.union.Some? then Some(Combine(Union, d.union.value))
    else if d.intersection.Some? then Some(Combine(Intersection, d.intersection.value))
    else Some(Combine(Difference, d.difference.value))
  }

  /** The zones an expression refers to. */
  function References(d: Definition): seq<string> {
    match ExpressionOf(d)
    case Some(Combine(_, zones)) => zones
    case _ => []
  }

  // ------------------------------------------------------------------ set operations

  /** `_apply_operation`: no operands give the empty set; difference takes the rest from the first. */
  function Apply(op: Operation, operands: seq<Zone>): Zone {
    if operands == [] then {}
    else match op
      case Union => UnionOf(operands)
      case Intersection => IntersectionOf(operands[0], operands[1..])
      case Difference => Subtract(operands[0], operands[1..])
  }

  function UnionOf(operands: seq<Zone>): Zone {
    if operands == [] then {} else operands[0] + UnionOf(operands[1..])
  }

  function IntersectionOf(first: Zone, rest: seq<Zone>): Zone {
    if rest == [] then first else IntersectionOf(first * rest[0], rest[1..])
  }

  function Subtract(first: Zone, rest: seq<Zone>): Zone
    decreases |rest|
  {
    if rest == [] then first else Subtract(first - rest[0], rest[1..])
  }

  lemma {:induction false} UnionMembers(operands: seq<Zone>, x: string)
    ensures x in UnionOf(operands) <==> exists i :: 0 <= i < |operands| && x in operands[i]
  {
    if operands != [] {
      UnionMembers(operands[1..], x);
      if i :| 0 <= i < |operands[1..]| && x in operands[1..][i] { assert x in operands[i + 1]; }
      if i :| 1 <= i < |operands| && x in operands[i] { assert x in operands[1..][i - 1]; }
    }
  }

  lemma {:induction false} IntersectionMembers(first: Zone, rest: seq<Zone>, x: string)
    ensures x in IntersectionOf(first, rest) <==> x in first && forall i :: 0 <= i < |rest| ==> x in rest[i]
  {
    if rest != [] {
      IntersectionMembers(first * rest[0], rest[1..], x);
      assert forall i :: 1 <= i < |rest| ==> rest[i] == rest[1..][i - 1];
    }
  }

  /** The subtraction of one operand after the other, as `_apply_operation` does it. */
  lemma {:induction false} DifferenceByFolding(first: Zone, rest: seq<Zone>)
    ensures Subtract(first, rest) == first - UnionOf(rest)
    decreases |rest|
  {
    if rest != [] { DifferenceByFolding(first - rest[0], rest[1..]); }
  }

  /** What the three operations mean, element by element. */
  lemma ApplyMeans(op: Operation, operands: seq<Zone>, x: string)
    requires operands != []
    ensures x in Apply(op, operands) <==>
              match op
              case Union => exists i :: 0 <= i < |operands| && x in operands[i]
              case Intersection => forall i :: 0 <= i < |operands| ==> x in operands[i]
              case Difference => x in operands[0] && forall i :: 1 <= i < |operands| ==> x !in operands[i]
  {
    UnionMembers(operands, x);
    UnionMembers(operands[1..], x);
    DifferenceByFolding(operands[0], operands[1..]);
    IntersectionMembers(operands[0], operands[1..], x);
    assert forall i :: 1 <= i < |operands| ==> operands[i] == operands[1..][i - 1];
  }

  // ---------------------------------------------------------------- the set equations

  type Solution = map<string, Zone>

  function Operands(zones: seq<string>, s: Solution): seq<Zone>
    requires forall z :: z in zones ==> z in s
  {
    seq(|zones|, i requires 0 <= i < |zones| => s[zones[i]])
  }

  /** The right-hand side of the equation of a zone. */
  function Evaluate(e: Expression, s: Solution): Zone
    requires e.Combine? ==> forall z :: z in e.zones ==> z in s
  {
    match e
    case Include(sources) => set x | x in sources
    case Combine(op, zones) => Apply(op, Operands(zones, s))
  }

  /** The equation of `zone` holds in `s`. */
  predicate Satisfied(defs: Definitions, s: Solution, zone: string)
    requires zone in defs
  {
    && zone in s && ExpressionOf(defs[zone]).Some?
    && (forall z :: z in References(defs[zone]) ==> z in s)
    && s[zone] == Evaluate(ExpressionOf(defs[zone]).value, s)
  }

  predicate Solves(defs: Definitions, s: Solution) {
    s.Keys == defs.Keys && forall z :: z in defs ==> Satisfied(defs, s, z)
  }

  // ----------------------------------------------------------------- chains and cycles

  predicate RefersTo(defs: Definitions, a: string, b: string) {
    a in defs && b in References(defs[a])
  }

  /** Each zone of the sequence refers to the next. */
  predicate Chain(defs: Definitions, c: seq<string>) {
    forall i :: 0 <= i < |c| - 1 ==> RefersTo(defs, c[i], c[i + 1])
  }

  predicate Cycle(defs: Definitions, c: seq<string>) {
    |c| >= 2 && c[0] == c[|c| - 1] && Chain(defs, c)
  }

  ghost predicate Acyclic(defs: Definitions) {
    forall c :: !Cycle(defs, c)
  }

  predicate WellFormed(defs: Definitions) {
    forall z :: z in defs ==> ExpressionOf(defs[z]).Some?
  }

  predicate Closed(defs: Definitions) {
    forall z :: z in defs ==> forall r :: r in References(defs[z]) ==> r in defs
  }

  /** What the resolution promises to accept. */
  ghost predicate Resolvable(defs: Definitions) {
    WellFormed(defs) && Closed(defs) && Acyclic(defs)
  }

  // --------------------------------------------------------------- the order of results

  /** Zones in the order of their resolution: every reference is resolved before. */
  predicate Ordered(defs: Definitions, order: seq<string>) {
    forall i :: 0 <= i < |order| ==>
      order[i] in defs && forall r :: r in References(defs[order[i]]) ==> r in order[..i]
  }

  lemma {:induction false} ChainGoesBack(defs: Definitions, order: seq<string>, c: seq<string>, i: nat)
    requires Ordered(defs, order) && Chain(defs, c) && i < |c| && c[0] in order
    ensures c[i] in order && (i > 0 ==> IndexOf(order, c[i]) < IndexOf(order, c[0]))
  {
    if i > 0 {
      ChainGoesBack(defs, order, c, i - 1);
      var k := IndexOf(order, c[i - 1]);
      assert RefersTo(defs, c[i - 1], c[i]);
      assert c[i] in order[..k];
      var j := IndexOf(order[..k], c[i]);
      assert order[j] == c[i];
      FirstIndexIsLeast(order, c[i], j);
    }
  }

  lemma {:induction false} FirstIndexIsLeast(s: seq<string>, x: string, j: nat)
    requires j < |s| && s[j] == x
    ensures IndexOf(s, x) <= j
  {
    var i := IndexOf(s, x);
    assert forall k :: 0 <= k < i ==> s[k] == s[..i][k] && s[..i][k] in s[..i];
  }

  /** An order of all zones rules out every cycle. */
  lemma OrderedIsAcyclic(defs: Definitions, order: seq<string>)
    requires Ordered(defs, order) && forall z :: z in defs ==> z in order
    ensures Acyclic(defs)
  {
    forall c ensures !Cycle(defs, c) {
      if Cycle(defs, c) {
        assert RefersTo(defs, c[0], c[1]);
        ChainGoesBack(defs, order, c, |c| - 1);
      }
    }
  }

  /** The memo is right: it holds the ordered zones, and each satisfies its equation. */
  ghost predicate Memo(defs: Definitions, s: Solution, order: seq<string>) {
    && Ordered(defs, order)
    && (forall z :: z in s <==> z in order)
    && (forall z :: z in s ==> z in defs && Satisfied(defs, s, z))
  }

  lemma OperandsSame(zones: seq<string>, s: Solution, t: Solution)
    requires forall z :: z in zones ==> z in s && z in t && s[z] == t[z]
    ensures Operands(zones, s) == Operands(zones, t)
  {
  }

  /** Every solution of the equations agrees with the memo. */
  lemma {:induction false} MemoIsUnique(defs: Definitions, s: Solution, order: seq<string>, t: Solution, i: nat)
    requires Memo(defs, s, order) && Solves(defs, t) && i < |order|
    ensures t[order[i]] == s[order[i]]
  {
    var z := order[i];
    assert z in s && Satisfied(defs, s, z) && Satisfied(defs, t, z);
    forall r | r in References(defs[z]) ensures s[r] == t[r] {
      var j := IndexOf(order[..i], r);
      assert order[j] == r;
      MemoIsUnique(defs, s, order, t, j);
    }
    OperandsSame(References(defs[z]), s, t);
  }

  lemma MemoGrows(defs: Definitions, s: Solution, order: seq<string>, zone: string, value: Zone)
    requires Memo(defs, s, order) && zone in defs && zone !in s
    requires ExpressionOf(defs[zone]).Some? && forall r :: r in References(defs[zone]) ==> r in s
    requires value == Evaluate(ExpressionOf(defs[zone]).value, s)
    ensures Memo(defs, s[zone := value], order + [zone])
  {
    var (t, o) := (s[zone := value], order + [zone]);
    forall i | 0 <= i < |o|
      ensures o[i] in defs && forall r :: r in References(defs[o[i]]) ==> r in o[..i]
    {
      if i < |order| { assert o[..i] == order[..i]; } else { assert o[..i] == order; }
    }
    forall z | z in t ensures z in defs && Satisfied(defs, t, z) {
      if z != zone { assert Satisfied(defs, s, z); }
      OperandsSame(References(defs[z]), s, t);
    }
  }

  // -------------------------------------------------------------------- the resolution

  datatype ZoneError = Malformed(zone: string) | Unknown(zone: string, user: Option<string>) | Circular(path: seq<string>)

  /** The reported reason is a real one. */
  predicate Justified(defs: Definitions, e: ZoneError) {
    match e
    case Malformed(zone) => zone in defs && ExpressionOf(defs[zone]).None?
    case Unknown(zone, user) => zone !in defs && user.Some? && RefersTo(defs, user.value, zone)
    case Circular(path) => Cycle(defs, path)
  }

  lemma JustifiedMeansUnresolvable(defs: Definitions, e: ZoneError)
    requires Justified(defs, e)
    ensures !Resolvable(defs)
  {
    if e.Circular? { assert Cycle(defs, e.path); }
  }

  /** What has been resolved stays as it is. */
  predicate Extends(s: Solution, t: Solution) {
    forall z :: z in s ==> z in t && t[z] == s[z]
  }

  /** The zones of a path are defined and not resolved yet. */
  predicate Open(defs: Definitions, s: Solution, path: seq<string>) {
    forall i :: 0 <= i < |path| ==> path[i] in defs && path[i] !in s
  }

  lemma OpenSplits(defs: Definitions, s: Solution, path: seq<string>, zone: string)
    ensures Open(defs, s, path + [zone]) <==> Open(defs, s, path) && zone in defs && zone !in s
  {
    assert (path + [zone])[|path|] == zone;
    assert forall i :: 0 <= i < |path| ==> (path + [zone])[i] == path[i];
  }

  /** The definitions not on the path: what the recursion uses up. */
  function Left(defs: Definitions, path: seq<string>): set<string> {
    set z | z in defs && z !in path
  }

  lemma LeftShrinks(defs: Definitions, path: seq<string>, zone: string)
    requires zone in defs && zone !in path
    ensures Left(defs, path + [zone]) < Left(defs, path)
  {
    assert zone in Left(defs, path);
  }

  lemma ChainSplits(defs: Definitions, path: seq<string>, zone: string)
    requires Chain(defs, path + [zone])
    ensures path != [] ==> RefersTo(defs, path[|path| - 1], zone)
    ensures zone in path ==> Cycle(defs, path[IndexOf(path, zone)..] + [zone])
  {
    var c := path + [zone];
    assert path != [] ==> RefersTo(defs, c[|path| - 1], c[|path|]);
    if zone in path { ChainClosed(defs, path, zone, IndexOf(path, zone)); }
  }

  lemma ChainClosed(defs: Definitions, path: seq<string>, zone: string, start: nat)
    requires Chain(defs, path + [zone]) && start < |path| && path[start] == zone
    ensures Cycle(defs, path[start..] + [zone])
  {
    var (c, cycle) := (path + [zone], path[start..] + [zone]);
    forall i | 0 <= i < |cycle| - 1 ensures RefersTo(defs, cycle[i], cycle[i + 1]) {
      assert RefersTo(defs, c[start + i], c[start + i + 1]);
    }
  }

  lemma ChainLonger(defs: Definitions, path: seq<string>, zone: string)
    requires path != [] && Chain(defs, path) && RefersTo(defs, path[|path| - 1], zone)
    ensures Chain(defs, path + [zone])
  {
    var c := path + [zone];
    forall i | 0 <= i < |c| - 1 ensures RefersTo(defs, c[i], c[i + 1]) {
      if i < |path| - 1 { assert RefersTo(defs, path[i], path[i + 1]); }
    }
  }

  class ZoneResolver {
    const definitions: Definitions
    var resolved: Solution
    ghost var order: seq<string>

    ghost predicate Valid()
      reads this
    {
      Memo(definitions, resolved, order)
    }

    constructor (definitions: Definitions)
      ensures Valid() && this.definitions == definitions && resolved == map[]
    {
      this.definitions, resolved, order := definitions, map[], [];
    }

    /** Adds a result to the memo. */
    method Remember(zone: string, value: Zone)
      requires Valid() && zone in definitions && zone !in resolved && ExpressionOf(definitions[zone]).Some?
      requires forall r :: r in References(definitions[zone]) ==> r in resolved
      requires value == Evaluate(ExpressionOf(definitions[zone]).value, resolved)
      modifies this
      ensures Valid() && resolved == old(resolved)[zone := value]
    {
      MemoGrows(definitions, resolved, order, zone, value);
      resolved := resolved[zone := value];
      order := order + [zone];
    }

    /** `resolve`: terminates because each call puts one more definition on the path. */
    method Resolve(zone: string, path: seq<string>) returns (r: Result<Zone, ZoneError>)
      requires Valid() && Chain(definitions, path + [zone]) && Open(definitions, resolved, path)
      requires path == [] ==> zone in definitions
      modifies this
      ensures Valid() && Extends(old(resolved), resolved)
      ensures r.Ok? ==> zone in resolved && r.value == resolved[zone] && Open(definitions, resolved, path)
      ensures r.Err? ==> Justified(definitions, r.error)
      decreases Left(definitions, path), 1
    {
      ChainSplits(definitions, path, zone);
      hide Memo, Chain, ExpressionOf, Apply, Operands, Left, Cycle;
      if zone in resolved {
        return Ok(resolved[zone]);
      }
      if zone !in definitions {
        return Err(Unknown(zone, Some(path[|path| - 1])));
      }
      if zone in path {
        return Err(Circular(path[IndexOf(path, zone)..] + [zone]));
      }
      var expression := ExpressionOf(definitions[zone]);
      if expression.None? {
        return Err(Malformed(zone));
      }
      OpenSplits(definitions, resolved, path, zone);
      r := ResolveNew(zone, expression.value, path);
    }

    /** A zone that is defined and not on the path: its operands first, then its own value. */
    method ResolveNew(zone: string, expression: Expression, path: seq<string>) returns (r: Result<Zone, ZoneError>)
      requires Valid() && Chain(definitions, path + [zone]) && Open(definitions, resolved, path + [zone])
      requires zone in definitions && zone !in path && ExpressionOf(definitions[zone]) == Some(expression)
      modifies this
      ensures Valid() && Extends(old(resolved), resolved)
      ensures r.Ok? ==> zone in resolved && r.value == resolved[zone] && Open(definitions, resolved, path)
      ensures r.Err? ==> Justified(definitions, r.error)
      decreases Left(definitions, path), 0
    {
      OpenSplits(definitions, resolved, path, zone);
      assert forall i :: 0 <= i < |path| ==> path[i] != zone;
      hide Memo, Chain, Apply, Operands, Left, Cycle, Justified;
      var result;
      match expression {
        case Include(sources) => result := set x | x in sources;
        case Combine(op, zones) =>
          LeftShrinks(definitions, path, zone);
          var operands := ResolveAll(zone, zones, path + [zone]);
          if operands.Err? {
            return Err(operands.error);
          }
          result := Apply(op, operands.value);
      }
      OpenSplits(definitions, resolved, path, zone);
      Remember(zone, result);
      r := Ok(result);
    }

    /** The operands of `zone`, resolved one after the other. */
    method ResolveAll(zone: string, zones: seq<string>, path: seq<string>) returns (r: Result<seq<Zone>, ZoneError>)
      requires Valid() && zone in definitions && References(definitions[zone]) == zones
      requires path != [] && path[|path| - 1] == zone && Chain(definitions, path) && Open(definitions, resolved, path)
      modifies this
      ensures Valid() && Extends(old(resolved), resolved)
      ensures r.Ok? ==> (forall z :: z in zones ==> z in resolved) && r.value == Operands(zones, resolved)
      ensures r.Ok? ==> Open(definitions, resolved, path)
      ensures r.Err? ==> Justified(definitions, r.error)
      decreases Left(definitions, path), 2
    {
      hide Memo, Chain, ExpressionOf;
      var operands: seq<Zone> := [];
      for i := 0 to |zones|
        invariant Valid() && |operands| == i && Extends(old(resolved), resolved) && Open(definitions, resolved, path)
        invariant forall j :: 0 <= j < i ==> zones[j] in resolved && operands[j] == resolved[zones[j]]
      {
        ChainLonger(definitions, path, zones[i]);
        var operand := Resolve(zones[i], path);
        if operand.Err? {
          return Err(operand.error);
        }
        operands := operands + [operand.value];
      }
      r := Ok(operands);
    }

    /** `resolve_zones`: the whole mapping, or the first error. */
    method ResolveZones() returns (r: Result<Solution, ZoneError>)
      requires Valid()
      modifies this
      ensures r.Ok? ==> Resolvable(definitions) && Solves(definitions, r.value)
      ensures r.Ok? ==> forall t :: Solves(definitions, t) ==> t == r.value
      ensures r.Err? ==> Justified(definitions, r.error) && !Resolvable(definitions)
    {
      var rest := definitions.Keys;
      while rest != {}
        invariant Valid() && rest <= definitions.Keys && forall z :: z in definitions && z !in rest ==> z in resolved
        decreases |rest|
      {
        var zone :| zone in rest;
        var one := Resolve(zone, []);
        if one.Err? {
          JustifiedMeansUnresolvable(definitions, one.error);
          return Err(one.error);
        }
        rest := rest - {zone};
      }
      FullMemoSolves(definitions, resolved, order);
      r := Ok(resolved);
    }
  }

  /** A memo of all zones is the one solution, and shows the definitions resolvable. */
  lemma FullMemoSolves(defs: Definitions, s: Solution, order: seq<string>)
    requires Memo(defs, s, order) && forall z :: z in defs ==> z in s
    ensures Solves(defs, s) && Resolvable(defs)
    ensures forall t :: Solves(defs, t) ==> t == s
  {
    OrderedIsAcyclic(defs, order);
    forall z | z in defs ensures ExpressionOf(defs[z]).Some? && forall r :: r in References(defs[z]) ==> r in defs {
      assert Satisfied(defs, s, z);
    }
    forall t | Solves(defs, t) ensures t == s {
      forall z | z in defs ensures t[z] == s[z] {
        MemoIsUnique(defs, s, order, t, IndexOf(order, z));
      }
    }
  }
}
