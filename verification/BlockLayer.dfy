/** The buffer cache and the request queues together: callers of getblk, lock holders and the disks change
    one set of buffers.  What each side assumes of the other is what the other one keeps. */
module BlockLayer {
  import opened Buffers
  import opened Counting
  import opened Requests
  import C = BufferCache
  import D = BlockDevice
  import E = Elevator

  /** Both sides see the same buffers. */
  datatype System = System(cache: C.Cache, table: Table)

  datatype Step =
    | Cache(e: C.Step)                         // a caller of getblk moves, or somebody marks a buffer
    | Lock(b: nat)                             // make_request up to the search for a slot
    | Unlock(b: nat)                           // nothing to do, or a read ahead without a slot
    | Enqueue(slot: nat, r: Request)           // make_request and add_request
    | Dequeue(m: nat, uptodate: bool)          // end_request

  predicate InRange(dev: nat, block: nat) { dev < DEVICES && block < BLOCKS }

  ghost predicate Inv(s: System) {
    && C.Inv(s.cache) && Ok(s.table) && s.table.bh == s.cache.bufs
    && forall p | p in s.cache.callers :: InRange(s.cache.callers[p].dev, s.cache.callers[p].block)
  }

  ghost predicate Enabled(s: System, step: Step) {
    match step
    case Cache(e) => C.Enabled(s.cache, e) && !e.Lock? && !e.Unlock? && (e.Call? ==> InRange(e.dev, e.block))
    case Lock(b) => C.Enabled(s.cache, C.Lock(b))
    case Unlock(b) => b in s.table.pending
    case Enqueue(slot, r) => CanEnqueue(s.table, slot, r)
    case Dequeue(m, _) => CanDequeue(s.table, m)
  }

  /** What the cache sees of a step. */
  ghost function CacheStep(s: System, step: Step): (e: C.Step)
    requires Inv(s) && Enabled(s, step)
    ensures C.Enabled(s.cache, e)
  {
    var bufs := s.cache.bufs;
    match step
    case Cache(e) => e
    case Lock(b) => C.Lock(b)
    case Unlock(b) => C.Unlock(b, bufs[b].uptodate)
    case Enqueue(slot, r) => C.Mark(r.bh, false, bufs[r.bh].uptodate)
    case Dequeue(m, uptodate) =>
      CurrentSlot(s.table, m);
      C.Unlock(s.table.request[s.table.chains[m][0]].bh, uptodate)
  }

  /** And what the request table sees. */
  ghost function NextTable(s: System, step: Step): Table
    requires Inv(s) && Enabled(s, step)
  {
    match step
    case Cache(e) => SetBuffers(s.table, C.Next(s.cache, e).bufs)
    case Lock(b) => Requests.Lock(s.table, b)
    case Unlock(b) => Requests.Unlock(s.table, b)
    case Enqueue(slot, r) => Requests.Enqueue(s.table, slot, r)
    case Dequeue(m, uptodate) =>
      CurrentSlot(s.table, m);
      Requests.Dequeue(s.table, m, uptodate)
  }

  ghost function Next(s: System, step: Step): System
    requires Inv(s) && Enabled(s, step)
  {
    System(C.Next(s.cache, CacheStep(s, step)), NextTable(s, step))
  }

  /** The steps of the cache leave locked buffers their lock and their block. */
  lemma CacheSpares(c: C.Cache, e: C.Step, b: nat)
    requires C.Inv(c) && C.Enabled(c, e) && !e.Lock? && !e.Unlock? && b < |c.bufs|
    requires forall p | p in c.callers :: InRange(c.callers[p].dev, c.callers[p].block)
    ensures var d := C.Next(c, e);
            && |d.bufs| == |c.bufs| && SameWhileLocked(c.bufs[b], d.bufs[b])
            && (InRange(c.bufs[b].dev, c.bufs[b].block) ==> InRange(d.bufs[b].dev, d.bufs[b].block))
  {
    C.IdentityChange(c, e, b);
    hide C.Inv, C.Cached;
  }

  lemma CallersInRange(c: C.Cache, e: C.Step)
    requires C.Enabled(c, e) && (e.Call? ==> InRange(e.dev, e.block))
    requires forall p | p in c.callers :: InRange(c.callers[p].dev, c.callers[p].block)
    ensures var d := C.Next(c, e); forall p | p in d.callers :: InRange(d.callers[p].dev, d.callers[p].block)
  {
    hide C.Cached;
  }

  lemma CacheStepKeeps(s: System, e: C.Step)
    requires Inv(s) && Enabled(s, Cache(e))
    ensures Ok(NextTable(s, Cache(e))) && D.SameQueues(s.table, NextTable(s, Cache(e)))
  {
    var c, d := s.cache, C.Next(s.cache, e);
    C.StepKeeps(c, e);
    C.StepKeepsCounts(c, e);
    assert BuffersOk(c.bufs) && C.Inv(d);
    hide C.Next, C.Enabled, Ok;
    forall b: nat | b < |c.bufs|
      ensures SameWhileLocked(c.bufs[b], d.bufs[b]) && InRange(d.bufs[b].dev, d.bufs[b].block)
    {
      CacheSpares(c, e, b);
    }
    assert BuffersOk(d.bufs);
    CacheKeeps(s.table, d.bufs);
  }

  /** Every step keeps both invariants: the cache supplies the one buffer per block that the elevator rests on,
      and the locks of the request table keep the cache from taking buffers away. */
  lemma StepKeeps(s: System, step: Step)
    requires Inv(s) && Enabled(s, step)
    ensures Inv(Next(s, step))
  {
    var t := s.table;
    C.StepKeeps(s.cache, CacheStep(s, step));
    CallersInRange(s.cache, CacheStep(s, step));
    match step
    case Cache(e) => CacheStepKeeps(s, e);
    case Lock(b) => D.LockKeeps(t, b);
    case Unlock(b) => D.UnlockKeeps(t, b);
    case Enqueue(slot, r) => EnqueueKeeps(t, slot, r);
    case Dequeue(m, uptodate) => DequeueKeeps(t, m, uptodate);
  }

  // ---- The queues ----

  /** What a step is for the queue of major m. */
  ghost function EventOf(step: Step, m: nat): seq<E.Event> {
    if step.Enqueue? && step.r.dev >= 0 && Major(step.r.dev) == m then [E.Add(E.Rank(KeyOf(step.r)))]
    else if step.Dequeue? && step.m == m then [E.Done]
    else []
  }

  lemma StepEvent(s: System, step: Step, m: nat)
    requires Inv(s) && Enabled(s, step) && m < NR_BLK_DEV
    ensures var q := QueueOf(s.table, m);
            E.History(q, EventOf(step, m)) && QueueOf(NextTable(s, step), m) == E.AfterAll(q, EventOf(step, m))
  {
    var t := s.table;
    OneEvent(QueueOf(t, m), EventOf(step, m));
    hide Ok, C.Inv, QueueOf, E.History, E.AfterAll, E.Insert, KeyOf, E.Rank;
    match step
    case Cache(e) => CacheStepKeeps(s, e);
    case Lock(b) => D.LockKeeps(t, b);
    case Unlock(b) => D.UnlockKeeps(t, b);
    case Enqueue(slot, r) =>
      EnqueueKeeps(t, slot, r);
      NewRank(t, slot, r);
    case Dequeue(k, uptodate) => DequeueKeeps(t, k, uptodate);
  }

  lemma OneEvent(q: E.Queue, es: seq<E.Event>)
    requires |es| <= 1
    ensures E.History(q, es) <==> es == [] || E.CanHappen(q, es[0])
    ensures E.History(q, es) ==> E.AfterAll(q, es) == if es == [] then q else E.After(q, es[0])
  {}

  predicate SameRequest(x: Request, y: Request) { x == y.(next := x.next) }

  /** A queued request stays in its slot until it is completed. */
  lemma SlotStays(s: System, step: Step, m: nat, slot: nat)
    requires Inv(s) && Enabled(s, step) && m < NR_BLK_DEV && InQueue(s.table, m, slot)
    requires step.Dequeue? && step.m == m ==> s.table.chains[m][0] != slot
    ensures var u := NextTable(s, step);
            Shape(u) && InQueue(u, m, slot) && slot < NR_REQUEST && SameRequest(u.request[slot], s.table.request[slot])
  {
    var t := s.table;
    assert SlotOk(t, m, slot);
    match step
    case Cache(e) =>
    case Lock(b) =>
    case Unlock(b) =>
    case Enqueue(x, r) =>
      EnqueueKeeps(t, x, r);
      Splices(t, x, r, PlaceOf(t, r));
      FreeSlot(t, x, m);
    case Dequeue(k, uptodate) =>
      CurrentSlot(t, k);
      assert SlotOk(t, k, t.chains[k][0]);
      DequeueKeeps(t, k, uptodate);
      if k == m { assert t.chains[m] == [t.chains[m][0]] + t.chains[m][1..]; }
  }

  // ---- Runs ----

  ghost predicate Run(s: System, steps: seq<Step>)
    decreases |steps|
  {
    steps == [] || (Inv(s) && Enabled(s, steps[0]) && Run(Next(s, steps[0]), steps[1..]))
  }

  ghost function RunOf(s: System, steps: seq<Step>): System
    requires Run(s, steps)
    decreases |steps|
  {
    if steps == [] then s else RunOf(Next(s, steps[0]), steps[1..])
  }

  lemma {:induction false} RunKeeps(s: System, steps: seq<Step>)
    requires Inv(s) && Run(s, steps)
    ensures Inv(RunOf(s, steps))
    decreases |steps|
  {
    if steps != [] {
      StepKeeps(s, steps[0]);
      RunKeeps(Next(s, steps[0]), steps[1..]);
    }
  }

  ghost function Events(steps: seq<Step>, m: nat): seq<E.Event> {
    if steps == [] then [] else EventOf(steps[0], m) + Events(steps[1..], m)
  }

  /** Every run is, for each queue, a history of the elevator. */
  lemma {:induction false} RunIsHistory(s: System, steps: seq<Step>, m: nat)
    requires Inv(s) && Run(s, steps) && m < NR_BLK_DEV
    ensures var q := QueueOf(s.table, m);
            E.History(q, Events(steps, m)) && QueueOf(RunOf(s, steps).table, m) == E.AfterAll(q, Events(steps, m))
    decreases |steps|
  {
    if steps != [] {
      FirstStep(s, steps);
      hide Inv, Enabled, Next, QueueOf, E.History, E.AfterAll;
      StepKeeps(s, steps[0]);
      StepEvent(s, steps[0], m);
      RunIsHistory(Next(s, steps[0]), steps[1..], m);
      TableAfter(s, steps[0]);
      Continued(QueueOf(s.table, m), EventOf(steps[0], m), Events(steps[1..], m));
    }
  }

  lemma TableAfter(s: System, step: Step)
    requires Inv(s) && Enabled(s, step)
    ensures Next(s, step).table == NextTable(s, step)
  {}

  lemma Continued(q: E.Queue, e: seq<E.Event>, rest: seq<E.Event>)
    requires |e| <= 1 && E.History(q, e) && E.History(E.AfterAll(q, e), rest)
    ensures E.History(q, e + rest) && E.AfterAll(q, e + rest) == E.AfterAll(E.AfterAll(q, e), rest)
  {
    OneEvent(q, e);
    if e == [] {
      assert e + rest == rest;
    } else {
      assert (e + rest)[0] == e[0] && (e + rest)[1..] == rest;
    }
  }

  /** How many requests of major m are completed. */
  function Completions(steps: seq<Step>, m: nat): nat {
    if steps == [] then 0 else (if steps[0].Dequeue? && steps[0].m == m then 1 else 0) + Completions(steps[1..], m)
  }

  /** The request in this slot is the one the driver works on. */
  predicate IsCurrent(t: Table, m: nat, slot: nat, r: Request) {
    && Shape(t) && m < NR_BLK_DEV && t.current[m] == slot && slot < NR_REQUEST && SameRequest(t.request[slot], r)
  }

  lemma HeadIsCurrent(t: Table, m: nat)
    requires Ok(t) && m < NR_BLK_DEV && t.chains[m] != []
    ensures t.chains[m][0] < NR_REQUEST && IsCurrent(t, m, t.chains[m][0], t.request[t.chains[m][0]])
  {
    CurrentSlot(t, m);
  }

  /** One step: the request is as far away as before, or one completion closer. */
  lemma CloserAfter(s: System, step: Step, m: nat, n: nat, i: nat) returns (n': nat, j: nat)
    requires Inv(s) && Enabled(s, step) && m < NR_BLK_DEV && 0 < i < |s.table.chains[m]|
             && E.Sweeps(QueueOf(s.table, m), n)
    ensures var t, u := s.table, Next(s, step).table;
            && Inv(Next(s, step)) && j < |u.chains[m]| && u.chains[m][j] == t.chains[m][i] < NR_REQUEST
            && SameRequest(u.request[u.chains[m][j]], t.request[t.chains[m][i]])
            && E.Sweeps(QueueOf(u, m), n')
            && E.Wait(QueueOf(u, m), n', j)
               <= E.Wait(QueueOf(t, m), n, i) - if step.Dequeue? && step.m == m then 1 else 0
  {
    var t, u, slot := s.table, NextTable(s, step), s.table.chains[m][i];
    StepKeeps(s, step);
    StepEvent(s, step, m);
    QueueDistinct(t, m);
    QueueDistinct(u, m);
    assert InQueue(t, m, slot) && slot != t.chains[m][0] by { ChainDistinct(t, m, 0, i); }
    SlotStays(s, step, m, slot);
    var e := EventOf(step, m);
    OneEvent(QueueOf(t, m), e);
    hide Inv, Enabled, Ok, QueueOf, NextTable, E.Sweeps, E.Wait, E.AfterAll, E.History, E.After, E.CanHappen,
        SameRequest;
    if e == [] {
      n', j := n, i;
    } else {
      n', j := E.CloserAfter(QueueOf(t, m), n, i, e[0]);
    }
    SlotAt(t, u, m, slot, i, j);
  }

  lemma ChainDistinct(t: Table, m: nat, i: nat, j: nat)
    requires Ok(t) && m < NR_BLK_DEV && i < j < |t.chains[m]|
    ensures t.chains[m][i] != t.chains[m][j]
  {}

  /** Where the rank is, is the slot. */
  lemma SlotAt(t: Table, u: Table, m: nat, slot: nat, i: nat, j: nat)
    requires Shape(t) && Shape(u) && m < NR_BLK_DEV && i < |t.chains[m]| && t.chains[m][i] == slot
             && slot in u.chains[m]
    requires SameRequest(u.request[slot], t.request[slot]) && Distinct(QueueOf(u, m))
    requires j < |u.chains[m]| && QueueOf(u, m)[j] == QueueOf(t, m)[i]
    ensures u.chains[m][j] == slot
  {
    var k :| 0 <= k < |u.chains[m]| && u.chains[m][k] == slot;
    assert QueueOf(u, m)[k] == QueueOf(t, m)[i];
  }

  lemma {:induction false} ServedWithin(s: System, steps: seq<Step>, m: nat, n: nat, i: nat) returns (k: nat)
    requires Inv(s) && Run(s, steps) && m < NR_BLK_DEV && i < |s.table.chains[m]| && E.Sweeps(QueueOf(s.table, m), n)
    requires Completions(steps, m) >= E.Wait(QueueOf(s.table, m), n, i)
    ensures k <= |steps| && Run(s, steps[..k]) && s.table.chains[m][i] < NR_REQUEST
    ensures var slot := s.table.chains[m][i]; IsCurrent(RunOf(s, steps[..k]).table, m, slot, s.table.request[slot])
    decreases |steps|
  {
    var slot := s.table.chains[m][i];
    if i == 0 {
      HeadIsCurrent(s.table, m);
      k := 0;
      return;
    }
    QueueDistinct(s.table, m);
    E.WaitPositive(QueueOf(s.table, m), n, i);
    FirstStep(s, steps);
    hide *;
    var n', j := CloserAfter(s, steps[0], m, n, i);
    k := ServedWithin(Next(s, steps[0]), steps[1..], m, n', j);
    RunExtends(s, steps, k);
    k := k + 1;
    StillCurrent(RunOf(s, steps[..k]).table, m, slot, Next(s, steps[0]).table.request[slot], s.table.request[slot]);
  }

  lemma FirstStep(s: System, steps: seq<Step>)
    requires Run(s, steps) && steps != []
    ensures Inv(s) && Enabled(s, steps[0]) && Run(Next(s, steps[0]), steps[1..])
  {}

  lemma RunExtends(s: System, steps: seq<Step>, k: nat)
    requires Run(s, steps) && k < |steps| && Inv(s) && Enabled(s, steps[0]) && Run(Next(s, steps[0]), steps[1..][..k])
    ensures Run(s, steps[..k + 1]) && RunOf(s, steps[..k + 1]) == RunOf(Next(s, steps[0]), steps[1..][..k])
  {
    assert steps[..k + 1][1..] == steps[1..][..k] && steps[..k + 1][0] == steps[0];
    hide Inv, Enabled, Next;
  }

  lemma StillCurrent(t: Table, m: nat, slot: nat, r: Request, x: Request)
    requires IsCurrent(t, m, slot, r) && SameRequest(r, x)
    ensures IsCurrent(t, m, slot, x)
  {}

  /** No starvation: whatever the callers do meanwhile and whatever else is requested, the request of a queued
      buffer has been the current one by the time its device has completed 2 * RANKS requests. */
  lemma Served(s: System, steps: seq<Step>, b: nat) returns (k: nat, slot: nat)
    requires Inv(s) && Run(s, steps) && b < |s.table.bh| && s.table.bh[b].lock && b !in s.table.pending
    requires Completions(steps, Major(s.table.bh[b].dev)) >= 2 * E.RANKS
    ensures k <= |steps| && Run(s, steps[..k]) && Occupied(s.table, slot) && s.table.request[slot].bh == b
    ensures IsCurrent(RunOf(s, steps[..k]).table, Major(s.table.bh[b].dev), slot, s.table.request[slot])
  {
    var t := s.table;
    slot :| Occupied(t, slot) && t.request[slot].bh == b;
    var m := Major(t.request[slot].dev);
    assert InQueue(t, m, slot) && SlotOk(t, m, slot);
    var i: nat :| i < |t.chains[m]| && t.chains[m][i] == slot;
    var n :| E.Sweeps(QueueOf(t, m), n);
    QueueDistinct(t, m);
    E.WaitBounded(QueueOf(t, m), n, i);
    k := ServedWithin(s, steps, m, n, i);
  }

  // ---- The beginning ----

  /** No buffer has a block, and no slot is in use. */
  ghost function Boot(n: nat): System {
    var c := C.Boot(n);
    System(c, Table(seq(NR_REQUEST, _ => Request(-1, 0, 0, 0, -1)), c.bufs, seq(NR_BLK_DEV, _ => -1),
                    seq(NR_BLK_DEV, _ => []), {}))
  }

  lemma BootOk(n: nat)
    ensures Inv(Boot(n))
  {
    var t := Boot(n).table;
    C.BootOk(n);
    forall m: nat | m < NR_BLK_DEV ensures E.TwoSweeps(QueueOf(t, m)) { assert E.Sweeps(QueueOf(t, m), 0); }
  }

  /** In every state that can be reached there is one buffer for each block, the queues are two sweeps, and at
      most 21 slots hold writes. */
  lemma Reachable(n: nat, steps: seq<Step>, writes: set<nat>)
    requires Run(Boot(n), steps)
    ensures var t := RunOf(Boot(n), steps).table;
            && OneBufferPerBlock(t.bh)
            && (forall m: nat | m < NR_BLK_DEV :: E.TwoSweeps(QueueOf(t, m)) && Distinct(QueueOf(t, m)))
            && ((forall x | x in writes :: Occupied(t, x) && t.request[x].cmd == E.WRITE) ==> |writes| <= WRITE_SLOTS)
  {
    BootOk(n);
    RunKeeps(Boot(n), steps);
    var t := RunOf(Boot(n), steps).table;
    forall m: nat | m < NR_BLK_DEV ensures Distinct(QueueOf(t, m)) { QueueDistinct(t, m); }
    if forall x | x in writes :: Occupied(t, x) && t.request[x].cmd == E.WRITE { WritesBounded(t, writes); }
  }
}
