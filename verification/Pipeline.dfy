/**
 The bounded pipeline of aismixer.py as an interleaving of blocks: readers admit
 frames, a control client replaces the routing, the processor takes one item at
 a time and waits until egress has sent its whole batch.  The processor itself
 is any function of its memory, the clock readings and the item.
 */
module Pipeline {
  import opened Common
  import opened Routing
  import opened ProcessingQueue

  datatype Setup<!P, !R, !O> = Setup(
    capacity: nat, egressCapacity: nat, legacy: seq<int>, memory: P, process: (P, R, WorkItem) -> (P, seq<O>))

  /** The ingress side; `arrived`, `admitted`, `taken` and `snapshots` only record what happened. */
  datatype Front = Front(
    inputs: seq<seq<Option<Frame>>>,  // private backlogs; `None` is an item that is no frame
    readers: seq<Option<Frame>>,      // the frame a suspended reader holds
    admission: Admission,
    routing: Snapshot,
    arrived: seq<seq<Option<Frame>>>,
    admitted: seq<WorkItem>,
    taken: nat,
    snapshots: seq<Snapshot>)

  datatype Stage<O> = Ready | Putting(batch: seq<O>) | Waiting

  datatype Egress<O> = Resting | Dispatching(batch: seq<O>, sent: nat)

  /** Processor and egress; `completed` is the completion future, `served` and `dispatched` are records. */
  datatype Back<P, R, O> = Back(
    memory: P, stage: Stage<O>, egressQueue: seq<seq<O>>, egress: Egress<O>, completed: bool,
    served: seq<R>, dispatched: seq<O>)

  datatype State<P, R, O> = State(front: Front, back: Back<P, R, O>)

  datatype Event<R> =
    | Arrive(input: nat, item: Option<Frame>)
    | Replace(table: Option<RoutingTable>, expected: Option<nat>)
    | Take(reader: nat)
    | Resume(place: nat)
    | Serve(readings: R)
    | PutBatch
    | EgressGet
    | Send
    | Finish
    | Awake

  /** Whether the pipeline itself makes the step. */
  predicate Internal<R>(e: Event<R>) {
    !e.Arrive? && !e.Replace?
  }

  function Start<P, R, O>(setup: Setup<P, R, O>, inputs: nat, table: Option<RoutingTable>): State<P, R, O> {
    State(
      Front(seq(inputs, _ => []), seq(inputs, _ => None), Admission(setup.capacity, setup.capacity, [], []),
            Snapshot(0, table), seq(inputs, _ => []), [], 0, [Snapshot(0, table)]),
      Back(setup.memory, Ready, [], Resting, false, [], []))
  }

  /** Whether the step can happen now. */
  predicate Can<P, R, O>(setup: Setup<P, R, O>, s: State<P, R, O>, e: Event<R>) {
    var (f, b) := (s.front, s.back);
    match e
    case Arrive(i, _) => i < |f.inputs| && i < |f.arrived|
    case Replace(_, _) => true
    case Take(r) => r < |f.inputs| && r < |f.readers| && f.readers[r].None? && f.inputs[r] != []
    case Resume(k) =>
      k < |f.admission.waiters| && f.admission.waiters[k].granted
      && f.admission.waiters[k].reader < |f.readers| && f.readers[f.admission.waiters[k].reader].Some?
    case Serve(_) => b.stage.Ready? && f.admission.queue != []
    case PutBatch => b.stage.Putting? && |b.egressQueue| < setup.egressCapacity
    case EgressGet => b.egress.Resting? && b.egressQueue != []
    case Send => b.egress.Dispatching? && b.egress.sent < |b.egress.batch|
    case Finish => b.egress.Dispatching? && b.egress.sent >= |b.egress.batch|
    case Awake => b.stage.Waiting? && b.completed
  }

  /** `routing_state.replace`. */
  function Replaced(f: Front, table: Option<RoutingTable>, expected: Option<nat>): Front {
    if (table.Some? && table.value.plan.None?) || (expected.Some? && expected.value != f.routing.generation) then f
    else
      var next := Snapshot(f.routing.generation + 1, table);
      f.(routing := next, snapshots := f.snapshots + [next])
  }

  /** A reader takes the next item; a frame is admitted at once or held until a permit comes. */
  function Taking(f: Front, r: nat, legacy: seq<int>): Front
    requires r < |f.inputs| && r < |f.readers| && f.inputs[r] != []
  {
    var g := f.(inputs := f.inputs[r := f.inputs[r][1..]]);
    if f.inputs[r][0].None? then g
    else
      var frame := f.inputs[r][0].value;
      if Locked(f.admission) then
        g.(readers := f.readers[r := Some(frame)], admission := Suspend(f.admission, r))
      else
        var item := Bind(frame, r, f.routing, legacy);
        g.(admission := AdmitNow(f.admission, item), admitted := f.admitted + [item])
  }

  /** A reader with a permit binds its frame to the routing of this moment and enqueues it. */
  function Resuming(f: Front, k: nat, legacy: seq<int>): Front
    requires k < |f.admission.waiters|
    requires f.admission.waiters[k].reader < |f.readers| && f.readers[f.admission.waiters[k].reader].Some?
  {
    var r := f.admission.waiters[k].reader;
    var item := Bind(f.readers[r].value, r, f.routing, legacy);
    f.(readers := f.readers[r := None], admission := Put(Resumed(f.admission, k), item), admitted := f.admitted + [item])
  }

  /** The processor runs on an item; an empty batch is not handed on. */
  function Serving<P, R, O>(setup: Setup<P, R, O>, b: Back<P, R, O>, item: WorkItem, readings: R): Back<P, R, O> {
    var (memory, batch) := setup.process(b.memory, readings, item);
    b.(memory := memory, served := b.served + [readings], stage := if batch == [] then Ready else Putting(batch))
  }

  function Step<P, R, O>(setup: Setup<P, R, O>, s: State<P, R, O>, e: Event<R>): State<P, R, O>
    requires Can(setup, s, e)
  {
    var (f, b) := (s.front, s.back);
    match e
    case Arrive(i, item) =>
      s.(front := f.(inputs := f.inputs[i := f.inputs[i] + [item]], arrived := f.arrived[i := f.arrived[i] + [item]]))
    case Replace(table, expected) => s.(front := Replaced(f, table, expected))
    case Take(r) => s.(front := Taking(f, r, setup.legacy))
    case Resume(k) => s.(front := Resuming(f, k, setup.legacy))
    case Serve(readings) =>
      State(f.(admission := Taken(f.admission), taken := f.taken + 1),
            Serving(setup, b, f.admission.queue[0], readings))
    case PutBatch =>
      s.(back := b.(stage := Waiting, egressQueue := b.egressQueue + [b.stage.batch], completed := false))
    case EgressGet => s.(back := b.(egressQueue := b.egressQueue[1..], egress := Dispatching(b.egressQueue[0], 0)))
    case Send =>
      s.(back := b.(egress := Dispatching(b.egress.batch, b.egress.sent + 1),
                    dispatched := b.dispatched + [b.egress.batch[b.egress.sent]]))
    case Finish => s.(back := b.(egress := Resting, completed := true))
    case Awake => s.(back := b.(stage := Ready, completed := false))
  }

  predicate Feasible<P, R, O>(setup: Setup<P, R, O>, s: State<P, R, O>, events: seq<Event<R>>)
    decreases events, 0
  {
    events == [] ||
    var before := events[..|events| - 1];
    Feasible(setup, s, before) && Can(setup, Run(setup, s, before), events[|events| - 1])
  }

  /** The state after a sequence of steps. */
  function Run<P, R, O>(setup: Setup<P, R, O>, s: State<P, R, O>, events: seq<Event<R>>): State<P, R, O>
    requires Feasible(setup, s, events)
    decreases events, 1
  {
    if events == [] then s
    else Step(setup, Run(setup, s, events[..|events| - 1]), events[|events| - 1])
  }

  // ---------------------------------------------------------------- what must hold

  /** The frames among the items of an input. */
  function FramesAmong(items: seq<Option<Frame>>): seq<Frame> {
    if items == [] then []
    else FramesAmong(items[..|items| - 1]) + Held(items[|items| - 1])
  }

  function Held(item: Option<Frame>): seq<Frame> {
    if item.Some? then [item.value] else []
  }

  /** The frames one reader admitted. */
  function FramesOf(admitted: seq<WorkItem>, r: nat): seq<Frame> {
    if admitted == [] then []
    else
      var last := admitted[|admitted| - 1];
      FramesOf(admitted[..|admitted| - 1], r) + if last.reader == r then [last.frame] else []
  }

  /** Memory and all outputs of a processor that is given these items, one after the other. */
  function Outcome<P, R, O>(setup: Setup<P, R, O>, items: seq<WorkItem>, served: seq<R>): (P, seq<O>)
    requires |items| == |served|
  {
    if items == [] then (setup.memory, [])
    else
      var n := |items| - 1;
      var (memory, outputs) := Outcome(setup, items[..n], served[..n]);
      var (after, batch) := setup.process(memory, served[n], items[n]);
      (after, outputs + batch)
  }

  /** Exactly the readers that hold a frame wait in line, each once. */
  predicate LineUp(f: Front) {
    var ws := f.admission.waiters;
    && |f.inputs| == |f.readers| == |f.arrived|
    && (forall i :: 0 <= i < |ws| ==> ws[i].reader < |f.readers| && f.readers[ws[i].reader].Some?)
    && EachOnce(ws)
    && (forall r :: 0 <= r < |f.readers| && f.readers[r].Some? ==> InLine(ws, r))
  }

  predicate EachOnce(ws: seq<Waiter>) {
    forall i, j :: 0 <= i < j < |ws| ==> ws[i].reader != ws[j].reader
  }

  predicate InLine(ws: seq<Waiter>, r: nat) {
    exists i :: 0 <= i < |ws| && ws[i].reader == r
  }

  /** A free permit and a waiter without one: then some waiter with a permit is about to run. */
  predicate NoLostWakeup(a: Admission) {
    a.value > 0 && FirstUngranted(a.waiters) < |a.waiters| ==> Granted(a.waiters) > 0
  }

  /** What arrived at an input is what was admitted from it, what its reader holds, and its backlog, in this order. */
  predicate OrderKept(f: Front) {
    && |f.inputs| == |f.readers| == |f.arrived|
    && forall r :: 0 <= r < |f.inputs| ==> InOrder(f.admitted, f.readers[r], f.inputs[r], f.arrived[r], r)
  }

  predicate InOrder(
    admitted: seq<WorkItem>, held: Option<Frame>, backlog: seq<Option<Frame>>, arrived: seq<Option<Frame>>, r: nat)
  {
    FramesOf(admitted, r) + Held(held) + FramesAmong(backlog) == FramesAmong(arrived)
  }

  predicate Numbered(snapshots: seq<Snapshot>) {
    forall i :: 0 <= i < |snapshots| ==> snapshots[i].generation == i
  }

  /** Every item is bound to the snapshot whose generation it carries. */
  predicate BoundToOne(admitted: seq<WorkItem>, snapshots: seq<Snapshot>, legacy: seq<int>) {
    forall k :: 0 <= k < |admitted| ==>
      && admitted[k].generation < |snapshots|
      && admitted[k] == Bind(admitted[k].frame, admitted[k].reader, snapshots[admitted[k].generation], legacy)
  }

  predicate NonDecreasing(admitted: seq<WorkItem>) {
    forall i, j :: 0 <= i < j < |admitted| ==> admitted[i].generation <= admitted[j].generation
  }

  predicate WellBound(f: Front, legacy: seq<int>) {
    && Numbered(f.snapshots) && f.snapshots != [] && f.routing == f.snapshots[|f.snapshots| - 1]
    && BoundToOne(f.admitted, f.snapshots, legacy) && NonDecreasing(f.admitted)
  }

  predicate QueueIsRest(f: Front) {
    f.taken <= |f.admitted| && f.admission.queue == f.admitted[f.taken..]
  }

  predicate FrontSafe(f: Front, capacity: nat, legacy: seq<int>) {
    && Balanced(f.admission) && f.admission.capacity == capacity && NoLostWakeup(f.admission)
    && LineUp(f) && OrderKept(f) && WellBound(f, legacy) && QueueIsRest(f)
  }

  /** One batch at most is under way. */
  predicate OneBatch<P, R, O>(b: Back<P, R, O>) {
    match b.stage
    case Ready => b.egressQueue == [] && b.egress.Resting? && !b.completed
    case Putting(batch) => b.egressQueue == [] && b.egress.Resting? && !b.completed
    case Waiting =>
      if b.completed then b.egressQueue == [] && b.egress.Resting?
      else if b.egress.Resting? then |b.egressQueue| == 1
      else b.egressQueue == [] && b.egress.sent <= |b.egress.batch|
  }

  /** What of the batch under way has not been sent. */
  function Unsent<P, R, O>(b: Back<P, R, O>): seq<O>
    requires OneBatch(b)
  {
    match b.stage
    case Ready => []
    case Putting(batch) => batch
    case Waiting =>
      if b.completed then [] else if b.egress.Resting? then b.egressQueue[0] else b.egress.batch[b.egress.sent..]
  }

  ghost predicate BackSafe<P, R, O>(setup: Setup<P, R, O>, b: Back<P, R, O>, items: seq<WorkItem>) {
    && |items| == |b.served| && OneBatch(b)
    && Outcome(setup, items, b.served) == (b.memory, b.dispatched + Unsent(b))
  }

  ghost predicate Safe<P, R, O>(setup: Setup<P, R, O>, s: State<P, R, O>) {
    && FrontSafe(s.front, setup.capacity, setup.legacy)
    && BackSafe(setup, s.back, s.front.admitted[..s.front.taken])
  }

  // ------------------------------------------------------------------ small lemmas

  lemma {:induction false} FramesAmongConcat(a: seq<Option<Frame>>, b: seq<Option<Frame>>)
    ensures FramesAmong(a + b) == FramesAmong(a) + FramesAmong(b)
    decreases |b|
  {
    if b == [] { assert a + b == a; } else {
      var n := |b| - 1;
      assert (a + b)[..|a + b| - 1] == a + b[..n];
      FramesAmongConcat(a, b[..n]);
    }
  }

  lemma FramesAmongHead(items: seq<Option<Frame>>)
    requires items != []
    ensures FramesAmong(items) == Held(items[0]) + FramesAmong(items[1..])
  {
    assert items == [items[0]] + items[1..];
    FramesAmongConcat([items[0]], items[1..]);
    assert FramesAmong([items[0]]) == Held(items[0]) by { assert [items[0]][..0] == []; }
  }

  lemma FramesOfAppend(admitted: seq<WorkItem>, item: WorkItem, r: nat)
    ensures FramesOf(admitted + [item], r) == FramesOf(admitted, r) + if item.reader == r then [item.frame] else []
  {
    assert (admitted + [item])[..|admitted|] == admitted;
  }

  /** An item bound to the current snapshot keeps the generations in order. */
  lemma BindingKeepsOrder(f: Front, frame: Frame, r: nat, legacy: seq<int>)
    requires WellBound(f, legacy)
    ensures WellBound(f.(admitted := f.admitted + [Bind(frame, r, f.routing, legacy)]), legacy)
  {
  }

  lemma SomeGranted(ws: seq<Waiter>, k: nat)
    requires k < |ws| && ws[k].granted
    ensures Granted(ws) > 0
  {
    GrantedSplit(ws, k);
  }

  /** After `_wake_up_next` no wakeup is missing. */
  lemma WakingLosesNone(a: Admission)
    ensures NoLostWakeup(WakeNext(a))
  {
    var k := FirstUngranted(a.waiters);
    if k < |a.waiters| && a.value > 0 {
      SomeGranted(WakeNext(a).waiters, k);
    }
  }

  /** Marking waiters as granted leaves the line as it is. */
  lemma SameLine(f: Front, g: Front)
    requires LineUp(f) && g.readers == f.readers && |g.inputs| == |f.inputs| && |g.arrived| == |f.arrived|
    requires |g.admission.waiters| == |f.admission.waiters|
    requires forall i :: 0 <= i < |f.admission.waiters| ==> g.admission.waiters[i].reader == f.admission.waiters[i].reader
    ensures LineUp(g)
  {
    var (ws, xs) := (f.admission.waiters, g.admission.waiters);
    forall r | 0 <= r < |f.readers| && f.readers[r].Some?
      ensures InLine(xs, r)
    {
      assert InLine(ws, r);
      var i :| 0 <= i < |ws| && ws[i].reader == r;
      assert xs[i].reader == r;
    }
  }

  /** A reader joins the line with its frame. */
  lemma JoinsLine(f: Front, r: nat, frame: Frame)
    requires LineUp(f) && r < |f.readers| && f.readers[r].None?
    ensures LineUp(f.(readers := f.readers[r := Some(frame)], admission := Suspend(f.admission, r)))
  {
    var ws := f.admission.waiters;
    var xs := ws + [Waiter(r, false)];
    assert xs[|ws|].reader == r;
    forall q | 0 <= q < |f.readers| && f.readers[q].Some?
      ensures InLine(xs, q)
    {
      assert InLine(ws, q);
      var i :| 0 <= i < |ws| && ws[i].reader == q;
      assert xs[i].reader == q;
    }
  }

  lemma OneFewer(ws: seq<Waiter>, k: nat, i: nat)
    requires k < |ws| && i < |ws| - 1
    ensures (ws[..k] + ws[k + 1..])[i] == ws[if i < k then i else i + 1]
  {
  }

  lemma LeavesInLine(ws: seq<Waiter>, k: nat, q: nat)
    requires k < |ws| && ws[k].reader != q && InLine(ws, q)
    ensures InLine(ws[..k] + ws[k + 1..], q)
  {
    var i :| 0 <= i < |ws| && ws[i].reader == q;
    var at := if i < k then i else i - 1;
    OneFewer(ws, k, at);
    assert (ws[..k] + ws[k + 1..])[at].reader == q;
  }

  lemma LeavesOnce(ws: seq<Waiter>, k: nat)
    requires k < |ws| && EachOnce(ws)
    ensures EachOnce(ws[..k] + ws[k + 1..])
  {
    var xs := ws[..k] + ws[k + 1..];
    forall i, j | 0 <= i < j < |xs|
      ensures xs[i].reader != xs[j].reader
    {
      OneFewer(ws, k, i);
      OneFewer(ws, k, j);
    }
  }

  /** The waiter at place `k` leaves the line and its reader lets go of the frame. */
  lemma LeavesLine(f: Front, k: nat)
    requires LineUp(f) && k < |f.admission.waiters|
    ensures var ws := f.admission.waiters;
            LineUp(f.(readers := f.readers[ws[k].reader := None],
                      admission := f.admission.(waiters := ws[..k] + ws[k + 1..])))
  {
    var ws := f.admission.waiters;
    var xs := ws[..k] + ws[k + 1..];
    LeavesOnce(ws, k);
    forall i | 0 <= i < |xs|
      ensures xs[i].reader < |f.readers| && xs[i].reader != ws[k].reader && f.readers[xs[i].reader].Some?
    {
      OneFewer(ws, k, i);
    }
    hide EachOnce, InLine;
    forall q | 0 <= q < |f.readers| && f.readers[q].Some? && q != ws[k].reader
      ensures InLine(xs, q)
    {
      LeavesInLine(ws, k, q);
    }
  }

  // -------------------------------------------------------------- steps of the ingress side

  lemma InOrderArrive(
    admitted: seq<WorkItem>, held: Option<Frame>, backlog: seq<Option<Frame>>, arrived: seq<Option<Frame>>, r: nat,
    item: Option<Frame>)
    requires InOrder(admitted, held, backlog, arrived, r)
    ensures InOrder(admitted, held, backlog + [item], arrived + [item], r)
  {
    hide FramesAmong, FramesOf;
    FramesAmongConcat(backlog, [item]);
    FramesAmongConcat(arrived, [item]);
    var (a, b, c) := (FramesOf(admitted, r) + Held(held), FramesAmong(backlog), FramesAmong([item]));
    assert a + (b + c) == (a + b) + c;
  }

  /** The head of the backlog becomes the held frame, or is dropped. */
  lemma InOrderTake(admitted: seq<WorkItem>, backlog: seq<Option<Frame>>, arrived: seq<Option<Frame>>, r: nat)
    requires backlog != [] && InOrder(admitted, None, backlog, arrived, r)
    ensures InOrder(admitted, backlog[0], backlog[1..], arrived, r)
  {
    hide FramesAmong, FramesOf;
    FramesAmongHead(backlog);
    var (a, b, c) := (FramesOf(admitted, r), Held(backlog[0]), FramesAmong(backlog[1..]));
    assert (a + []) + (b + c) == (a + b) + c;
  }

  /** The held frame becomes an admitted item. */
  lemma InOrderAdmit(
    admitted: seq<WorkItem>, held: Option<Frame>, backlog: seq<Option<Frame>>, arrived: seq<Option<Frame>>, r: nat,
    item: WorkItem)
    requires InOrder(admitted, held, backlog, arrived, r)
    requires item.reader == r ==> held == Some(item.frame)
    ensures InOrder(admitted + [item], if item.reader == r then None else held, backlog, arrived, r)
  {
    hide FramesAmong, FramesOf;
    FramesOfAppend(admitted, item, r);
    var (a, b) := (FramesOf(admitted, r), FramesAmong(backlog));
    assert a + [] == a && (a + [item.frame]) + [] == a + [item.frame];
  }

  lemma ArriveKeepsOrder(f: Front, i: nat, item: Option<Frame>)
    requires OrderKept(f) && i < |f.inputs|
    ensures OrderKept(f.(inputs := f.inputs[i := f.inputs[i] + [item]], arrived := f.arrived[i := f.arrived[i] + [item]]))
  {
    hide InOrder;
    InOrderArrive(f.admitted, f.readers[i], f.inputs[i], f.arrived[i], i, item);
  }

  lemma TakeKeepsOrder(f: Front, r: nat)
    requires OrderKept(f) && r < |f.inputs| && f.readers[r].None? && f.inputs[r] != []
    ensures OrderKept(f.(inputs := f.inputs[r := f.inputs[r][1..]], readers := f.readers[r := f.inputs[r][0]]))
  {
    hide InOrder;
    InOrderTake(f.admitted, f.inputs[r], f.arrived[r], r);
  }

  lemma AdmitKeepsOrder(f: Front, item: WorkItem)
    requires OrderKept(f) && item.reader < |f.readers| && f.readers[item.reader] == Some(item.frame)
    ensures OrderKept(f.(admitted := f.admitted + [item], readers := f.readers[item.reader := None]))
  {
    hide InOrder;
    var g := f.(admitted := f.admitted + [item], readers := f.readers[item.reader := None]);
    forall q | 0 <= q < |g.inputs|
      ensures InOrder(g.admitted, g.readers[q], g.inputs[q], g.arrived[q], q)
    {
      InOrderAdmit(f.admitted, f.readers[q], f.inputs[q], f.arrived[q], q, item);
    }
  }

  lemma ArriveKeeps(f: Front, i: nat, item: Option<Frame>, capacity: nat, legacy: seq<int>)
    requires FrontSafe(f, capacity, legacy) && i < |f.inputs|
    ensures FrontSafe(f.(inputs := f.inputs[i := f.inputs[i] + [item]], arrived := f.arrived[i := f.arrived[i] + [item]]),
                      capacity, legacy)
  {
    hide Balanced, NoLostWakeup, WellBound, InOrder, InLine;
    var g := f.(inputs := f.inputs[i := f.inputs[i] + [item]], arrived := f.arrived[i := f.arrived[i] + [item]]);
    SameLine(f, g);
    ArriveKeepsOrder(f, i, item);
    SameBinding(f, g, legacy);
  }

  lemma ReplacedKeeps(f: Front, table: Option<RoutingTable>, expected: Option<nat>, capacity: nat, legacy: seq<int>)
    requires FrontSafe(f, capacity, legacy)
    ensures FrontSafe(Replaced(f, table, expected), capacity, legacy)
  {
    hide InOrder, Balanced, NoLostWakeup, Bind;
    SameLine(f, Replaced(f, table, expected));
  }

  lemma TakingKeeps(f: Front, r: nat, capacity: nat, legacy: seq<int>)
    requires FrontSafe(f, capacity, legacy) && r < |f.inputs| && f.readers[r].None? && f.inputs[r] != []
    ensures FrontSafe(Taking(f, r, legacy), capacity, legacy)
  {
    hide InOrder, Balanced, NoLostWakeup, WellBound, LineUp, Bind;
    TakeKeepsOrder(f, r);
    if f.inputs[r][0].None? {
      var g := Taking(f, r, legacy);
      assert g == f.(inputs := g.inputs, readers := f.readers[r := f.inputs[r][0]]);
      TakenLine(f, g);
      SameBinding(f, g, legacy);
    } else {
      TakingFrameKeeps(f, r, capacity, legacy);
    }
  }

  lemma TakenLine(f: Front, g: Front)
    requires LineUp(f) && |g.inputs| == |f.inputs| && g.readers == f.readers && g.arrived == f.arrived
    requires g.admission == f.admission
    ensures LineUp(g)
  {
    hide InLine, EachOnce;
  }

  lemma TakingFrameKeeps(f: Front, r: nat, capacity: nat, legacy: seq<int>)
    requires FrontSafe(f, capacity, legacy) && r < |f.inputs| && f.readers[r].None? && f.inputs[r] != []
    requires f.inputs[r][0].Some?
    requires OrderKept(f.(inputs := f.inputs[r := f.inputs[r][1..]], readers := f.readers[r := f.inputs[r][0]]))
    ensures FrontSafe(Taking(f, r, legacy), capacity, legacy)
  {
    hide Balanced, NoLostWakeup, WellBound, Bind;
    var g := Taking(f, r, legacy);
    var frame := f.inputs[r][0].value;
    var held := f.(inputs := g.inputs, readers := f.readers[r := Some(frame)]);
    var item := Bind(frame, r, f.routing, legacy);
    BlocksBalance(f.admission, item, r, 0);
    if Locked(f.admission) {
      assert LineUp(g) by { JoinsLine(f.(inputs := g.inputs), r, frame); }
      SuspendLosesNone(f.admission, r);
      assert WellBound(g, legacy) by { SameBinding(f, g, legacy); }
      hide LineUp;
      assert OrderKept(g) by { assert g == held.(admission := g.admission); }
    } else {
      assert LineUp(g) by { SameLine(f, g); }
      BindFields(frame, r, f.routing, legacy);
      assert held.readers[r := None] == f.readers;
      AdmitKeepsOrder(held, item);
      hide OrderKept, LineUp;
      BindingKeepsOrder(f, frame, r, legacy);
      SameBinding(f.(admitted := g.admitted), g, legacy);
      assert NoLostWakeup(g.admission) by { AdmitNowLosesNone(f.admission, item); }
      assert g.taken == f.taken && g.admission.queue == f.admission.queue + [item];
    }
  }

  lemma BindFields(frame: Frame, r: nat, s: Snapshot, legacy: seq<int>)
    ensures Bind(frame, r, s, legacy).frame == frame && Bind(frame, r, s, legacy).reader == r
  {
  }

  lemma SameBinding(f: Front, g: Front, legacy: seq<int>)
    requires WellBound(f, legacy) && g.routing == f.routing && g.snapshots == f.snapshots && g.admitted == f.admitted
    ensures WellBound(g, legacy)
  {
    hide BoundToOne, NonDecreasing, Numbered;
  }

  lemma AdmitNowLosesNone(a: Admission, item: WorkItem)
    requires !Locked(a)
    ensures NoLostWakeup(AdmitNow(a, item))
  {
  }

  lemma SuspendLosesNone(a: Admission, r: nat)
    requires Locked(a) && NoLostWakeup(a)
    ensures NoLostWakeup(Suspend(a, r))
  {
    GrantedConcat(a.waiters, [Waiter(r, false)]);
    if a.value > 0 && FirstUngranted(a.waiters) == |a.waiters| {
      SomeGranted(a.waiters, 0);
    }
  }

  lemma ResumedLosesNone(a: Admission, k: nat, item: WorkItem)
    requires k < |a.waiters|
    ensures NoLostWakeup(Put(Resumed(a, k), item))
  {
    WakingLosesNone(a.(waiters := a.waiters[..k] + a.waiters[k + 1..]));
  }

  lemma ResumedLine(f: Front, k: nat, legacy: seq<int>)
    requires LineUp(f) && k < |f.admission.waiters|
    ensures LineUp(Resuming(f, k, legacy))
  {
    var ws := f.admission.waiters;
    var left := f.admission.(waiters := ws[..k] + ws[k + 1..]);
    var g := Resuming(f, k, legacy);
    LeavesLine(f, k);
    WakeNextBalances(left);
    hide WakeNext, Bind, InLine;
    SameLine(f.(readers := g.readers, admission := left), g);
  }

  lemma ResumedQueue(a: Admission, k: nat)
    requires k < |a.waiters|
    ensures Resumed(a, k).queue == a.queue && Resumed(a, k).capacity == a.capacity
  {
  }

  lemma ResumingKeeps(f: Front, k: nat, capacity: nat, legacy: seq<int>)
    requires FrontSafe(f, capacity, legacy) && k < |f.admission.waiters| && f.admission.waiters[k].granted
    requires f.admission.waiters[k].reader < |f.readers| && f.readers[f.admission.waiters[k].reader].Some?
    ensures FrontSafe(Resuming(f, k, legacy), capacity, legacy)
  {
    hide Balanced, NoLostWakeup, WellBound, Bind, LineUp, OrderKept, Resumed;
    var r := f.admission.waiters[k].reader;
    var frame := f.readers[r].value;
    var item := Bind(frame, r, f.routing, legacy);
    var g := Resuming(f, k, legacy);
    BlocksBalance(f.admission, item, r, k);
    ResumedLosesNone(f.admission, k, item);
    ResumedLine(f, k, legacy);
    ResumedQueue(f.admission, k);
    BindFields(frame, r, f.routing, legacy);
    AdmitKeepsOrder(f, item);
    SameOrder(f.(admitted := g.admitted, readers := g.readers), g);
    BindingKeepsOrder(f, frame, r, legacy);
    SameBinding(f.(admitted := g.admitted), g, legacy);
    assert g.admission.queue == f.admission.queue + [item];
  }

  lemma SameOrder(f: Front, g: Front)
    requires OrderKept(f)
    requires g.inputs == f.inputs && g.readers == f.readers && g.arrived == f.arrived && g.admitted == f.admitted
    ensures OrderKept(g)
  {
    hide InOrder;
  }

  lemma TakenKeeps(f: Front, capacity: nat, legacy: seq<int>)
    requires FrontSafe(f, capacity, legacy) && f.admission.queue != []
    ensures FrontSafe(f.(admission := Taken(f.admission), taken := f.taken + 1), capacity, legacy)
    ensures f.taken < |f.admitted| && f.admission.queue[0] == f.admitted[f.taken]
  {
    var a := f.admission;
    var released := a.(queue := a.queue[1..], value := a.value + 1);
    BlocksBalance(a, a.queue[0], 0, 0);
    WakeNextBalances(released);
    WakingLosesNone(released);
    SameLine(f, f.(admission := Taken(a), taken := f.taken + 1));
  }

  // ------------------------------------------------------- steps of processor and egress

  lemma ServingKeeps<P, R, O>(setup: Setup<P, R, O>, b: Back<P, R, O>, items: seq<WorkItem>, item: WorkItem, readings: R)
    requires BackSafe(setup, b, items) && b.stage.Ready?
    ensures BackSafe(setup, Serving(setup, b, item, readings), items + [item])
  {
    var c := Serving(setup, b, item, readings);
    var batch := setup.process(b.memory, readings, item).1;
    assert (items + [item])[..|items|] == items;
    assert (b.served + [readings])[..|items|] == b.served;
    assert b.dispatched + Unsent(b) == b.dispatched;
    assert Unsent(c) == batch;
    assert Outcome(setup, items + [item], c.served) == (c.memory, b.dispatched + batch);
  }

  lemma BackKeeps<P, R, O>(setup: Setup<P, R, O>, s: State<P, R, O>, e: Event<R>)
    requires s.front.taken <= |s.front.admitted|
    requires BackSafe(setup, s.back, s.front.admitted[..s.front.taken])
    requires Can(setup, s, e) && (e.PutBatch? || e.EgressGet? || e.Send? || e.Finish? || e.Awake?)
    ensures BackSafe(setup, Step(setup, s, e).back, s.front.admitted[..s.front.taken])
  {
    hide Outcome;
    var (b, c) := (s.back, Step(setup, s, e).back);
    assert c.dispatched + Unsent(c) == b.dispatched + Unsent(b);
  }

  /** Every possible step keeps the pipeline safe. */
  lemma StepKeepsSafe<P, R, O>(setup: Setup<P, R, O>, s: State<P, R, O>, e: Event<R>)
    requires Safe(setup, s) && Can(setup, s, e)
    ensures Safe(setup, Step(setup, s, e))
  {
    hide Balanced, NoLostWakeup, OrderKept, WellBound, Outcome, OneBatch, Unsent, Bind, Taken, Serving;
    var (f, b) := (s.front, s.back);
    var g := Step(setup, s, e).front;
    match e {
      case Arrive(i, item) => ArriveKeeps(f, i, item, setup.capacity, setup.legacy);
      case Replace(table, expected) => ReplacedKeeps(f, table, expected, setup.capacity, setup.legacy);
      case Take(r) => TakingKeeps(f, r, setup.capacity, setup.legacy);
      case Resume(k) => ResumingKeeps(f, k, setup.capacity, setup.legacy);
      case Serve(readings) =>
        TakenKeeps(f, setup.capacity, setup.legacy);
        ServingKeeps(setup, b, f.admitted[..f.taken], f.admission.queue[0], readings);
        assert f.admitted[..f.taken + 1] == f.admitted[..f.taken] + [f.admission.queue[0]];
      case _ => BackKeeps(setup, s, e);
    }
    assert !e.Serve? ==> g.taken == f.taken && g.admitted[..f.taken] == f.admitted[..f.taken];
  }

  lemma StartIsSafe<P, R, O>(setup: Setup<P, R, O>, inputs: nat, table: Option<RoutingTable>)
    ensures Safe(setup, Start(setup, inputs, table))
  {
    var s := Start(setup, inputs, table);
    assert s.front.admitted[..s.front.taken] == [];
    assert s.back.dispatched + Unsent(s.back) == [];
    assert Outcome(setup, [], []) == (setup.memory, []);
  }

  lemma {:induction false} EveryRunIsSafe<P, R, O>(
    setup: Setup<P, R, O>, inputs: nat, table: Option<RoutingTable>, events: seq<Event<R>>)
    requires Feasible(setup, Start(setup, inputs, table), events)
    ensures Safe(setup, Run(setup, Start(setup, inputs, table), events))
  {
    hide Safe, Can, Step;
    StartIsSafe(setup, inputs, table);
    if events != [] {
      var before := events[..|events| - 1];
      EveryRunIsSafe(setup, inputs, table, before);
      StepKeepsSafe(setup, Run(setup, Start(setup, inputs, table), before), events[|events| - 1]);
    }
  }

  // ------------------------------------------------------------------ what it means

  /** A permit, free or handed over, means room; so `put_nowait` after it never meets a full queue. */
  lemma PermitsMeanRoom<P, R, O>(
    setup: Setup<P, R, O>, inputs: nat, table: Option<RoutingTable>, events: seq<Event<R>>, k: nat)
    requires Feasible(setup, Start(setup, inputs, table), events)
    ensures var a := Run(setup, Start(setup, inputs, table), events).front.admission;
            && |a.queue| <= setup.capacity
            && (!Locked(a) ==> |a.queue| < setup.capacity)
            && (k < |a.waiters| && a.waiters[k].granted ==> |Resumed(a, k).queue| < setup.capacity)
  {
    hide Can, Step, OrderKept, WellBound, LineUp, BackSafe, Resumed;
    EveryRunIsSafe(setup, inputs, table, events);
    PermitMeansRoom(Run(setup, Start(setup, inputs, table), events).front.admission, k);
  }

  /** In the order of admission generations never decrease, and each item carries the routing of its generation. */
  lemma GenerationsNeverDecrease<P, R, O>(
    setup: Setup<P, R, O>, inputs: nat, table: Option<RoutingTable>, events: seq<Event<R>>, i: nat, j: nat)
    requires Feasible(setup, Start(setup, inputs, table), events)
    requires i < j < |Run(setup, Start(setup, inputs, table), events).front.admitted|
    ensures var f := Run(setup, Start(setup, inputs, table), events).front;
            && f.admitted[i].generation <= f.admitted[j].generation <= f.routing.generation
            && f.admitted[j].generation < |f.snapshots|
            && f.snapshots[f.admitted[j].generation].generation == f.admitted[j].generation
            && f.admitted[j]
               == Bind(f.admitted[j].frame, f.admitted[j].reader, f.snapshots[f.admitted[j].generation], setup.legacy)
  {
    hide Can, Step, OrderKept, Balanced, NoLostWakeup, LineUp, BackSafe, QueueIsRest, Bind;
    EveryRunIsSafe(setup, inputs, table, events);
  }

  /** Nothing of an input is lost, repeated or overtaken: admitted, held and waiting frames are the arrived ones, in order. */
  lemma InputsKeepTheirOrder<P, R, O>(
    setup: Setup<P, R, O>, inputs: nat, table: Option<RoutingTable>, events: seq<Event<R>>, r: nat)
    requires Feasible(setup, Start(setup, inputs, table), events)
    requires r < |Run(setup, Start(setup, inputs, table), events).front.arrived|
    ensures var f := Run(setup, Start(setup, inputs, table), events).front;
            && |f.inputs| == |f.readers| == |f.arrived|
            && FramesOf(f.admitted, r) + Held(f.readers[r]) + FramesAmong(f.inputs[r]) == FramesAmong(f.arrived[r])
            && FramesOf(f.admitted, r) <= FramesAmong(f.arrived[r])
  {
    hide Can, Step, WellBound, Balanced, NoLostWakeup, LineUp, BackSafe, QueueIsRest, FramesOf, FramesAmong;
    EveryRunIsSafe(setup, inputs, table, events);
    var f := Run(setup, Start(setup, inputs, table), events).front;
    assert InOrder(f.admitted, f.readers[r], f.inputs[r], f.arrived[r], r);
  }

  /** What was sent is a prefix of all outputs of the items, processed one by one in the order of admission. */
  lemma DispatchFollowsAdmission<P, R, O>(
    setup: Setup<P, R, O>, inputs: nat, table: Option<RoutingTable>, events: seq<Event<R>>)
    requires Feasible(setup, Start(setup, inputs, table), events)
    ensures var s := Run(setup, Start(setup, inputs, table), events);
            && s.front.taken == |s.back.served| <= |s.front.admitted|
            && s.back.dispatched <= Outcome(setup, s.front.admitted[..s.front.taken], s.back.served).1
            && (s.back.stage.Ready? ==>
                  s.back.dispatched == Outcome(setup, s.front.admitted[..s.front.taken], s.back.served).1)
            && s.front.admitted == s.front.admitted[..s.front.taken] + s.front.admission.queue
  {
    hide Can, Step, WellBound, Balanced, NoLostWakeup, LineUp, OrderKept, Outcome;
    EveryRunIsSafe(setup, inputs, table, events);
  }

  /** The barrier: the processor never finds the egress queue occupied. */
  lemma EgressHasRoom<P, R, O>(
    setup: Setup<P, R, O>, inputs: nat, table: Option<RoutingTable>, events: seq<Event<R>>)
    requires Feasible(setup, Start(setup, inputs, table), events)
    ensures var b := Run(setup, Start(setup, inputs, table), events).back;
            && |b.egressQueue| <= 1
            && (b.stage.Ready? || b.stage.Putting? ==> b.egressQueue == [] && b.egress.Resting?)
  {
    hide Can, Step, FrontSafe, Outcome;
    EveryRunIsSafe(setup, inputs, table, events);
  }

  // ------------------------------------------------------------------------ progress

  /** Nothing is left to do. */
  predicate Drained<P, R, O>(s: State<P, R, O>) {
    && (forall r :: 0 <= r < |s.front.inputs| ==> s.front.inputs[r] == [])
    && (forall r :: 0 <= r < |s.front.readers| ==> s.front.readers[r].None?)
    && s.front.admission.queue == [] && s.back.stage.Ready? && s.back.egressQueue == [] && s.back.egress.Resting?
  }

  lemma {:induction false} AGrantedOne(ws: seq<Waiter>) returns (k: nat)
    requires Granted(ws) > 0
    ensures k < |ws| && ws[k].granted
  {
    if ws[0].granted { k := 0; } else {
      k := AGrantedOne(ws[1..]);
      k := k + 1;
    }
  }

  /** The processor or egress can move unless both are idle. */
  lemma BackMoves<P, R, O>(setup: Setup<P, R, O>, s: State<P, R, O>) returns (e: Event<R>)
    requires OneBatch(s.back) && !s.back.stage.Ready? && setup.egressCapacity >= 1
    ensures Internal(e) && Can(setup, s, e) && !e.Serve? && !e.Take? && !e.Resume?
  {
    var b := s.back;
    if b.stage.Putting? { e := PutBatch; }
    else if b.completed { e := Awake; }
    else if b.egress.Resting? { e := EgressGet; }
    else if b.egress.sent < |b.egress.batch| { e := Send; }
    else { e := Finish; }
  }

  /** A held frame whose reader nobody wakes: then all permits are in the queue. */
  lemma FrontMoves<P, R, O>(setup: Setup<P, R, O>, s: State<P, R, O>, readings: R) returns (e: Event<R>)
    requires FrontSafe(s.front, setup.capacity, setup.legacy) && setup.capacity >= 1 && s.back.stage.Ready?
    requires s.front.admission.queue != [] || exists r :: 0 <= r < |s.front.readers| && s.front.readers[r].Some?
    ensures Internal(e) && Can(setup, s, e)
  {
    hide OrderKept, WellBound, QueueIsRest;
    var a := s.front.admission;
    if a.queue != [] {
      e := Serve(readings);
    } else {
      var r :| 0 <= r < |s.front.readers| && s.front.readers[r].Some?;
      assert InLine(a.waiters, r);
      if FirstUngranted(a.waiters) > 0 {
        SomeGranted(a.waiters, 0);
      }
      var k := AGrantedOne(a.waiters);
      e := Resume(k);
    }
  }

  /** Never stuck: in every reachable state all work is done or the pipeline can make a step. */
  lemma NeverStuck<P, R(!new), O>(
    setup: Setup<P, R, O>, inputs: nat, table: Option<RoutingTable>, events: seq<Event<R>>, readings: R)
    requires setup.capacity >= 1 && setup.egressCapacity >= 1
    requires Feasible(setup, Start(setup, inputs, table), events)
    ensures var s := Run(setup, Start(setup, inputs, table), events);
            Drained(s) || exists e :: Internal(e) && Can(setup, s, e)
  {
    EveryRunIsSafe(setup, inputs, table, events);
    hide Feasible, Run, FrontSafe, BackSafe, InOrder;
    StuckOnlyWhenDrained(setup, Run(setup, Start(setup, inputs, table), events), readings);
  }

  lemma StuckOnlyWhenDrained<P, R(!new), O>(setup: Setup<P, R, O>, s: State<P, R, O>, readings: R)
    requires setup.capacity >= 1 && setup.egressCapacity >= 1 && Safe(setup, s)
    ensures Drained(s) || exists e :: Internal(e) && Can(setup, s, e)
  {
    hide Balanced, NoLostWakeup, InOrder, WellBound, InLine, Outcome;
    if !s.back.stage.Ready? {
      var e := BackMoves(setup, s);
    } else if s.front.admission.queue != [] || exists r :: 0 <= r < |s.front.readers| && s.front.readers[r].Some? {
      var e := FrontMoves(setup, s, readings);
    } else if exists r :: 0 <= r < |s.front.inputs| && s.front.inputs[r] != [] {
      var r :| 0 <= r < |s.front.inputs| && s.front.inputs[r] != [];
      assert Can(setup, s, Take(r));
    }
  }

  function Backlog(inputs: seq<seq<Option<Frame>>>): nat {
    if inputs == [] then 0 else |inputs[0]| + Backlog(inputs[1..])
  }

  lemma {:induction false} BacklogTake(inputs: seq<seq<Option<Frame>>>, r: nat)
    requires r < |inputs| && inputs[r] != []
    ensures Backlog(inputs[r := inputs[r][1..]]) == Backlog(inputs) - 1
  {
    var after := inputs[r := inputs[r][1..]];
    if r == 0 {
      assert after[1..] == inputs[1..];
    } else {
      assert after[1..] == inputs[1..][r - 1 := inputs[r][1..]];
      BacklogTake(inputs[1..], r - 1);
    }
  }

  /** What the ingress side still has to do: three steps for an item, two for a waiter, one for a queued item. */
  function FrontWork(f: Front): nat {
    3 * Backlog(f.inputs) + 2 * |f.admission.waiters| + |f.admission.queue|
  }

  /** The steps until the batch under way is done. */
  function BackWork<P, R, O>(b: Back<P, R, O>): nat
    requires OneBatch(b)
  {
    match b.stage
    case Ready => 0
    case Putting(batch) => |batch| + 5
    case Waiting =>
      if b.completed then 1
      else if b.egress.Resting? then |b.egressQueue[0]| + 4
      else |b.egress.batch| - b.egress.sent + 3
  }

  lemma TakeWorks(f: Front, r: nat, legacy: seq<int>)
    requires r < |f.inputs| && r < |f.readers| && f.inputs[r] != []
    ensures FrontWork(Taking(f, r, legacy)) < FrontWork(f)
  {
    hide Backlog, Bind, Locked;
    BacklogTake(f.inputs, r);
  }

  lemma ResumeWorks(f: Front, k: nat, legacy: seq<int>)
    requires k < |f.admission.waiters|
    requires f.admission.waiters[k].reader < |f.readers| && f.readers[f.admission.waiters[k].reader].Some?
    ensures FrontWork(Resuming(f, k, legacy)) < FrontWork(f)
  {
    var a := f.admission;
    WakeNextBalances(a.(waiters := a.waiters[..k] + a.waiters[k + 1..]));
    hide Backlog, Bind, WakeNext;
  }

  lemma ServeWorks(f: Front)
    requires f.admission.queue != []
    ensures FrontWork(f.(admission := Taken(f.admission), taken := f.taken + 1)) < FrontWork(f)
  {
    var a := f.admission;
    WakeNextBalances(a.(queue := a.queue[1..], value := a.value + 1));
    hide Backlog, WakeNext;
  }

  lemma BatchWorks<P, R, O>(setup: Setup<P, R, O>, s: State<P, R, O>, e: Event<R>)
    requires OneBatch(s.back) && Can(setup, s, e) && (e.PutBatch? || e.EgressGet? || e.Send? || e.Finish? || e.Awake?)
    ensures OneBatch(Step(setup, s, e).back)
    ensures Step(setup, s, e).front == s.front && BackWork(Step(setup, s, e).back) < BackWork(s.back)
  {
  }

  /** Left alone the pipeline comes to rest: each of its own steps leaves less to do. */
  lemma WorkDecreases<P, R, O>(setup: Setup<P, R, O>, s: State<P, R, O>, e: Event<R>)
    requires OneBatch(s.back) && Can(setup, s, e) && Internal(e)
    ensures OneBatch(Step(setup, s, e).back)
    ensures var t := Step(setup, s, e);
            || FrontWork(t.front) < FrontWork(s.front)
            || (FrontWork(t.front) == FrontWork(s.front) && BackWork(t.back) < BackWork(s.back))
  {
    hide FrontWork, BackWork, Taking, Resuming, Taken;
    match e {
      case Take(r) => TakeWorks(s.front, r, setup.legacy);
      case Resume(k) => ResumeWorks(s.front, k, setup.legacy);
      case Serve(_) => ServeWorks(s.front);
      case _ => BatchWorks(setup, s, e);
    }
  }

  /** From every safe state the pipeline's own steps lead to rest, and then every arrived frame went through. */
  lemma {:induction false} ComesToRest<P, R(!new), O>(setup: Setup<P, R, O>, s: State<P, R, O>, readings: R)
    returns (events: seq<Event<R>>)
    requires setup.capacity >= 1 && setup.egressCapacity >= 1 && Safe(setup, s)
    ensures forall e :: e in events ==> Internal(e)
    ensures Feasible(setup, s, events) && Drained(Run(setup, s, events))
    ensures AllThrough(setup, Run(setup, s, events))
    decreases FrontWork(s.front), BackWork(s.back)
  {
    hide FrontSafe, BackSafe, FrontWork, BackWork, Step, OneBatch, Can;
    if Drained(s) {
      events := [];
      DrainedIsThrough(setup, s);
    } else {
      StuckOnlyWhenDrained(setup, s, readings);
      assert OneBatch(s.back) by { SafeMeansOneBatch(setup, s); }
      var e: Event<R> :| Internal(e) && Can(setup, s, e);
      StepKeepsSafe(setup, s, e);
      WorkDecreases(setup, s, e);
      var rest := ComesToRest(setup, Step(setup, s, e), readings);
      RunFrom(setup, s, e, rest);
      events := [e] + rest;
    }
  }

  lemma SafeMeansOneBatch<P, R, O>(setup: Setup<P, R, O>, s: State<P, R, O>)
    requires Safe(setup, s)
    ensures OneBatch(s.back)
  {
    hide OneBatch, FrontSafe;
  }

  lemma {:induction false} RunFrom<P, R, O>(setup: Setup<P, R, O>, s: State<P, R, O>, e: Event<R>, rest: seq<Event<R>>)
    requires Can(setup, s, e) && Feasible(setup, Step(setup, s, e), rest)
    ensures Feasible(setup, s, [e] + rest)
    ensures Run(setup, s, [e] + rest) == Run(setup, Step(setup, s, e), rest)
  {
    hide Can, Step;
    var all := [e] + rest;
    if rest == [] {
      assert all[..0] == [] && all[0] == e;
    } else {
      var n := |rest| - 1;
      RunFrom(setup, s, e, rest[..n]);
      assert all[..|all| - 1] == [e] + rest[..n] && all[|all| - 1] == rest[n];
    }
  }

  /** Every arrived frame was admitted, in the order of its input, and all outputs were sent. */
  ghost predicate AllThrough<P, R, O>(setup: Setup<P, R, O>, s: State<P, R, O>) {
    && |s.front.admitted| == |s.back.served|
    && s.back.dispatched == Outcome(setup, s.front.admitted, s.back.served).1
    && forall r :: 0 <= r < |s.front.arrived| ==> FramesOf(s.front.admitted, r) == FramesAmong(s.front.arrived[r])
  }

  lemma DrainedIsThrough<P, R, O>(setup: Setup<P, R, O>, s: State<P, R, O>)
    requires Safe(setup, s) && Drained(s)
    ensures AllThrough(setup, s)
  {
    hide Balanced, NoLostWakeup, WellBound, LineUp, Outcome, FramesOf;
    var f := s.front;
    assert f.admitted[..f.taken] == f.admitted;
    forall r | 0 <= r < |f.arrived|
      ensures FramesOf(f.admitted, r) == FramesAmong(f.arrived[r])
    {
      assert InOrder(f.admitted, f.readers[r], f.inputs[r], f.arrived[r], r);
    }
  }
}
