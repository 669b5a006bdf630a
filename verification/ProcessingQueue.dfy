/**
 The bounded processing queue (aismixer.py) and the routing state
 (core/routing_state.py).  A queue slot is a permit of a semaphore: releasing one
 hands it to the first waiter, who uses it later, when it runs again.  Each
 method is one block that runs without suspension.
 */
module ProcessingQueue {
  import opened Common
  import opened Routing

  datatype Snapshot = Snapshot(generation: nat, table: Option<RoutingTable>)

  datatype ReplaceError = Stale(expected: nat, actual: nat) | NoPlan

  /** `RoutingState`: an immutable snapshot, replaced as a whole. */
  class RoutingState {
    var current: Snapshot

    /** The program refuses a first table without a plan. */
    constructor (table: Option<RoutingTable>)
      requires table.Some? ==> table.value.plan.Some?
      ensures current == Snapshot(0, table)
    {
      current := Snapshot(0, table);
    }

    /** Generations go up one at a time; a stale expectation or a table without plan changes nothing. */
    method Replace(table: Option<RoutingTable>, expected: Option<nat>) returns (r: Result<Snapshot, ReplaceError>)
      modifies this
      ensures r.Ok? <==>
                && (table.Some? ==> table.value.plan.Some?)
                && (expected.Some? ==> expected.value == old(current).generation)
      ensures current == if r.Ok? then r.value else old(current)
      ensures r.Ok? ==> r.value == Snapshot(old(current).generation + 1, table)
    {
      if table.Some? && table.value.plan.None? {
        return Err(NoPlan);
      }
      if expected.Some? && expected.value != current.generation {
        return Err(Stale(expected.value, current.generation));
      }
      current := Snapshot(current.generation + 1, table);
      r := Ok(current);
    }
  }

  datatype Frame = Frame(source: string, payload: string)

  /** A frame bound to the routing it was admitted under, and the reader that admitted it. */
  datatype WorkItem = WorkItem(frame: Frame, reader: nat, generation: nat, perTarget: bool, targets: seq<int>)

  /** `_bind_processing_work_item`. */
  function Bind(frame: Frame, reader: nat, s: Snapshot, legacy: seq<int>): WorkItem {
    if s.table.None? || s.table.value.plan.None? then WorkItem(frame, reader, s.generation, false, legacy)
    else WorkItem(frame, reader, s.generation, true,
                  FirstOccurrences(PlannedTargets(frame.source, s.table.value.plan.value)))
  }

  // ------------------------------------------------------------------------ permits

  /** A suspended `acquire`, with its permit once that has been handed over. */
  datatype Waiter = Waiter(reader: nat, granted: bool)

  datatype Admission = Admission(capacity: nat, value: nat, waiters: seq<Waiter>, queue: seq<WorkItem>)

  function Granted(ws: seq<Waiter>): nat {
    if ws == [] then 0 else (if ws[0].granted then 1 else 0) + Granted(ws[1..])
  }

  /** No permit is lost or made up: free ones, handed-over ones and occupied slots are the capacity. */
  predicate Balanced(a: Admission) {
    a.value + Granted(a.waiters) + |a.queue| == a.capacity
  }

  /** `locked`: a waiter that has its permit but has not run yet still counts. */
  predicate Locked(a: Admission) {
    a.value == 0 || a.waiters != []
  }

  /** The first waiter without a permit, or the length. */
  function FirstUngranted(ws: seq<Waiter>): (k: nat)
    ensures k <= |ws| && (k < |ws| ==> !ws[k].granted) && forall i :: 0 <= i < k ==> ws[i].granted
  {
    if ws == [] || !ws[0].granted then 0 else 1 + FirstUngranted(ws[1..])
  }

  /** `_wake_up_next`: one permit goes to the first waiter without one. */
  function WakeNext(a: Admission): Admission {
    var k := FirstUngranted(a.waiters);
    if k < |a.waiters| && a.value > 0
    then a.(value := a.value - 1, waiters := a.waiters[k := a.waiters[k].(granted := true)])
    else a
  }

  function Release(a: Admission): Admission {
    WakeNext(a.(value := a.value + 1))
  }

  /** A reader suspends on `acquire`. */
  function Suspend(a: Admission, reader: nat): Admission {
    a.(waiters := a.waiters + [Waiter(reader, false)])
  }

  /** A waiter with a permit runs: it leaves the line, and wakes the next one if there are free permits. */
  function Resumed(a: Admission, k: nat): Admission
    requires k < |a.waiters|
  {
    WakeNext(a.(waiters := a.waiters[..k] + a.waiters[k + 1..]))
  }

  function Put(a: Admission, item: WorkItem): Admission {
    a.(queue := a.queue + [item])
  }

  /** `admit` without suspension. */
  function AdmitNow(a: Admission, item: WorkItem): Admission
    requires a.value > 0
  {
    Put(a.(value := a.value - 1), item)
  }

  /** `get`: the item leaves and its permit is released. */
  function Taken(a: Admission): Admission
    requires a.queue != []
  {
    Release(a.(queue := a.queue[1..]))
  }

  lemma {:induction false} GrantedConcat(a: seq<Waiter>, b: seq<Waiter>)
    ensures Granted(a + b) == Granted(a) + Granted(b)
  {
    if a == [] { assert a + b == b; } else {
      assert (a + b)[1..] == a[1..] + b;
      GrantedConcat(a[1..], b);
    }
  }

  lemma GrantedSplit(ws: seq<Waiter>, k: nat)
    requires k < |ws|
    ensures Granted(ws) == Granted(ws[..k]) + (if ws[k].granted then 1 else 0) + Granted(ws[k + 1..])
  {
    assert ws == ws[..k] + ([ws[k]] + ws[k + 1..]);
    GrantedConcat(ws[..k], [ws[k]] + ws[k + 1..]);
    GrantedConcat([ws[k]], ws[k + 1..]);
  }

  lemma WakeNextBalances(a: Admission)
    ensures var w := WakeNext(a);
            && w.value + Granted(w.waiters) == a.value + Granted(a.waiters)
            && |w.waiters| == |a.waiters| && w.queue == a.queue && w.capacity == a.capacity
            && (forall i :: 0 <= i < |a.waiters| ==> w.waiters[i].reader == a.waiters[i].reader)
  {
    var k := FirstUngranted(a.waiters);
    if k < |a.waiters| && a.value > 0 {
      var ws := WakeNext(a).waiters;
      GrantedSplit(a.waiters, k);
      GrantedSplit(ws, k);
      assert ws[..k] == a.waiters[..k] && ws[k + 1..] == a.waiters[k + 1..];
    }
  }

  /** Whoever holds a permit finds room: `put_nowait` after it never meets a full queue. */
  lemma PermitMeansRoom(a: Admission, k: nat)
    requires Balanced(a)
    ensures a.value > 0 ==> |a.queue| < a.capacity
    ensures k < |a.waiters| && a.waiters[k].granted ==> |Resumed(a, k).queue| < a.capacity
  {
    if k < |a.waiters| {
      GrantedSplit(a.waiters, k);
      GrantedConcat(a.waiters[..k], a.waiters[k + 1..]);
      WakeNextBalances(a.(waiters := a.waiters[..k] + a.waiters[k + 1..]));
    }
  }

  /** Every block keeps the permits balanced. */
  lemma BlocksBalance(a: Admission, item: WorkItem, reader: nat, k: nat)
    requires Balanced(a)
    ensures Balanced(Suspend(a, reader))
    ensures a.value > 0 ==> Balanced(AdmitNow(a, item))
    ensures k < |a.waiters| && a.waiters[k].granted ==> Balanced(Put(Resumed(a, k), item))
    ensures a.queue != [] ==> Balanced(Taken(a))
  {
    GrantedConcat(a.waiters, [Waiter(reader, false)]);
    if k < |a.waiters| {
      GrantedSplit(a.waiters, k);
      GrantedConcat(a.waiters[..k], a.waiters[k + 1..]);
      WakeNextBalances(a.(waiters := a.waiters[..k] + a.waiters[k + 1..]));
    }
    if a.queue != [] {
      WakeNextBalances(a.(queue := a.queue[1..], value := a.value + 1));
    }
  }

  datatype QueueStats = QueueStats(peakDepth: nat, enqueued: nat, dequeued: nat, putWaits: nat, currentPutWaiters: nat)

  /** `_BoundedProcessingQueue`. */
  class BoundedProcessingQueue {
    const capacity: nat
    var slots: nat
    var waiters: seq<Waiter>
    var workQueue: seq<WorkItem>
    var stats: QueueStats

    function Abstract(): Admission
      reads this
    {
      Admission(capacity, slots, waiters, workQueue)
    }

    predicate Valid()
      reads this
    {
      && capacity >= 1 && Balanced(Abstract())
      && stats.enqueued == stats.dequeued + |workQueue|
      && |workQueue| <= stats.peakDepth <= capacity && stats.currentPutWaiters == |waiters|
    }

    constructor (capacity: nat)
      requires capacity >= 1
      ensures Valid() && Abstract() == Admission(capacity, capacity, [], [])
    {
      this.capacity, slots, waiters, workQueue := capacity, capacity, [], [];
      stats := QueueStats(0, 0, 0, 0, 0);
    }

    /** `put_nowait` and the counters; there is room, so the error branch is never taken. */
    method PutNowait(item: WorkItem)
      requires |workQueue| < capacity
      modifies this`workQueue, this`stats
      ensures workQueue == old(workQueue) + [item]
      ensures stats == old(stats).(
                enqueued := old(stats).enqueued + 1, peakDepth := Max(old(stats).peakDepth, |workQueue|))
    {
      workQueue := workQueue + [item];
      stats := stats.(enqueued := stats.enqueued + 1, peakDepth := Max(stats.peakDepth, |workQueue|));
    }

    /** `_wake_up_next`. */
    method WakeUpNext()
      requires slots > 0
      modifies this`slots, this`waiters
      ensures Abstract() == WakeNext(old(Abstract()))
    {
      var k := FirstUngranted(waiters);
      if k < |waiters| {
        slots := slots - 1;
        waiters := waiters[k := waiters[k].(granted := true)];
      }
    }

    /** `admit`, up to its first suspension: the item is bound and enqueued at once, or the reader waits. */
    method BeginAdmit(reader: nat, item: WorkItem) returns (admitted: bool)
      requires Valid()
      modifies this
      ensures Valid() && admitted == !Locked(old(Abstract()))
      ensures Abstract() == if old(Locked(Abstract())) then Suspend(old(Abstract()), reader) else AdmitNow(old(Abstract()), item)
    {
      BlocksBalance(Abstract(), item, reader, 0);
      PermitMeansRoom(Abstract(), 0);
      admitted := slots > 0 && waiters == [];
      if admitted {
        slots := slots - 1;
        PutNowait(item);
      } else {
        stats := stats.(putWaits := stats.putWaits + 1, currentPutWaiters := stats.currentPutWaiters + 1);
        waiters := waiters + [Waiter(reader, false)];
      }
    }

    /** `admit`, from the moment a waiter with a permit runs: binding and enqueueing follow without suspension. */
    method ResumeAdmit(k: nat, item: WorkItem)
      requires Valid() && k < |waiters| && waiters[k].granted
      modifies this
      ensures Valid() && Abstract() == Put(Resumed(old(Abstract()), k), item)
    {
      BlocksBalance(Abstract(), item, 0, k);
      PermitMeansRoom(Abstract(), k);
      WakeNextBalances(Abstract().(waiters := waiters[..k] + waiters[k + 1..]));
      waiters := waiters[..k] + waiters[k + 1..];
      if slots > 0 {
        WakeUpNext();
      }
      stats := stats.(currentPutWaiters := stats.currentPutWaiters - 1);
      PutNowait(item);
    }

    /** `get`, once there is an item. */
    method Get() returns (item: WorkItem)
      requires Valid() && workQueue != []
      modifies this
      ensures Valid() && item == old(workQueue)[0] && Abstract() == Taken(old(Abstract()))
    {
      BlocksBalance(Abstract(), workQueue[0], 0, 0);
      WakeNextBalances(Abstract().(queue := workQueue[1..], value := slots + 1));
      item := workQueue[0];
      workQueue := workQueue[1..];
      stats := stats.(dequeued := stats.dequeued + 1);
      slots := slots + 1;
      WakeUpNext();
    }
  }
}
