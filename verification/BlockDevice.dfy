/** kernel/blk_drv/ll_rw_blk.c and end_request of blk.h, working in place on the request table. */
module BlockDevice {
  import opened Buffers
  import opened Elevator
  import opened Requests

  datatype Command = Read | Write | ReadAhead | WriteAhead

  /** `Sleep`: the caller waits and tries again; nothing has changed. */
  datatype Reply = Sleep | Dropped | NotNeeded | Pending | Queued

  predicate Ahead(rw: Command) { rw == ReadAhead || rw == WriteAhead }

  function Cmd(rw: Command): nat { if rw == Read || rw == ReadAhead then READ else WRITE }

  /** Writes may use the low two thirds of the table only. */
  function Limit(rw: Command): nat { if Cmd(rw) == READ then NR_REQUEST else WRITE_SLOTS }

  /** The request that make_request writes for buffer b. */
  function RequestFor(t: Table, rw: Command, b: nat): Request
    requires b < |t.bh|
  {
    Request(t.bh[b].dev, Cmd(rw), t.bh[b].block * 2, b, -1)
  }

  ghost predicate SameQueues(t: Table, u: Table) {
    forall m: nat | m < NR_BLK_DEV :: QueueOf(u, m) == QueueOf(t, m)
  }

  lemma LockKeeps(t: Table, b: nat)
    requires Ok(t) && b < |t.bh| && !t.bh[b].lock && t.bh[b].dev != 0
    ensures Ok(Lock(t, b)) && SameQueues(t, Lock(t, b))
  {
    BufferChange(t, Lock(t, b), b);
  }

  lemma UnlockKeeps(t: Table, b: nat)
    requires Ok(t) && b in t.pending
    ensures b < |t.bh| && Ok(Unlock(t, b)) && SameQueues(t, Unlock(t, b))
  {
    BufferChange(t, Unlock(t, b), b);
  }

  class Device {
    const request: array<Request>
    const bh: array<Buffer>
    const current: array<int>           // blk_dev[m].current_request
    ghost var chains: seq<seq<nat>>
    ghost var pending: set<nat>

    ghost function T(): Table
      reads this, request, bh, current
    {
      Table(request[..], bh[..], current[..], chains, pending)
    }

    ghost predicate Valid()
      reads this, request, bh, current
    {
      request.Length == NR_REQUEST && current.Length == NR_BLK_DEV && Ok(T())
    }

    /** blk_dev_init, over a cache of n buffers without identity */
    constructor Init(n: nat)
      ensures Valid() && bh.Length == n && forall m: nat | m < NR_BLK_DEV :: QueueOf(T(), m) == []
    {
      request := new Request[NR_REQUEST](_ => Request(-1, 0, 0, 0, -1));
      bh := new Buffer[n](_ => EMPTY);
      current := new int[NR_BLK_DEV](_ => -1);
      chains := seq(NR_BLK_DEV, _ => []);
      pending := {};
      new;
      forall m: nat | m < NR_BLK_DEV ensures TwoSweeps(QueueOf(T(), m)) { assert Sweeps(QueueOf(T(), m), 0); }
    }

    /** make_request up to the point where a slot is needed. */
    method Begin(rw: Command, b: nat) returns (r: Reply)
      requires Valid() && b < bh.Length && bh[b].dev != 0
      modifies `pending, bh
      ensures Valid() && SameQueues(old(T()), T())
      ensures old(bh[b].lock) ==>
                r == (if rw == ReadAhead || rw == WriteAhead then Dropped else Sleep) && T() == old(T())
      ensures !old(bh[b].lock) ==>
                r == (if (if Cmd(rw) == READ then old(bh[b].uptodate) else !old(bh[b].dirt)) then NotNeeded
                      else Pending)
      ensures !old(bh[b].lock) && (rw == Read || rw == ReadAhead) ==> (r == NotNeeded <==> old(bh[b].uptodate))
      ensures !old(bh[b].lock) && (rw == Write || rw == WriteAhead) ==> (r == NotNeeded <==> !old(bh[b].dirt))
      ensures r == Pending ==> T() == Lock(old(T()), b) && bh[b].lock
      ensures r == NotNeeded ==> T() == old(T())
    {
      ghost var t := T();
      if Ahead(rw) {
        if bh[b].lock { return Dropped; }
      }
      if bh[b].lock { return Sleep; }
      LockKeeps(t, b);
      assert b !in pending;
      bh[b] := bh[b].(lock := true);
      pending := pending + {b};
      if (Cmd(rw) == WRITE && !bh[b].dirt) || (Cmd(rw) == READ && bh[b].uptodate) {
        UnlockKeeps(T(), b);
        bh[b] := bh[b].(lock := false);
        pending := pending - {b};
        assert bh[..] == t.bh && pending == t.pending;
        return NotNeeded;
      }
      r := Pending;
    }

    /** make_request from `repeat` on: the highest free slot below the limit, or none. */
    method Fill(rw: Command, b: nat) returns (r: Reply, ghost s: nat)
      requires Valid() && b in pending && Major(bh[b].dev) < NR_BLK_DEV
      modifies this, request, bh, current
      ensures Valid() && r in {Queued, Dropped, Sleep}
      ensures r == Queued ==>
                && s < Limit(rw) && CanEnqueue(old(T()), s, RequestFor(old(T()), rw, b))
                && (forall x: nat | s < x < Limit(rw) :: Occupied(old(T()), x))
                && T() == Enqueue(old(T()), s, RequestFor(old(T()), rw, b))
      ensures r == Queued ==>
                && s < request.Length && s < (if rw == Read || rw == ReadAhead then 32 else 21)
                && request[s].cmd == (if rw == Read || rw == ReadAhead then 0 else 1)
                && request[s].dev == old(bh[b].dev) && request[s].sector == 2 * old(bh[b].block) && request[s].bh == b
                && bh[b].lock && !bh[b].dirt
      ensures r != Queued ==>
                forall x: nat | x < (if rw == Read || rw == ReadAhead then 32 else 21) :: Occupied(old(T()), x)
      ensures r == Queued ==> forall k: nat | k < NR_BLK_DEV ::
                QueueOf(T(), k) == (var q := QueueOf(old(T()), k);
                                    if k == Major(old(bh[b].dev))
                                        then Insert(q, Rank(KeyOf(RequestFor(old(T()), rw, b)))) else q)
      ensures r != Queued ==>
                (forall x: nat | x < Limit(rw) :: Occupied(old(T()), x))
                && r == (if rw == ReadAhead || rw == WriteAhead then Dropped else Sleep)
      ensures r == Dropped ==> T() == Unlock(old(T()), b)
      ensures r == Sleep ==> T() == old(T())
    {
      hide Ok, CanEnqueue, Enqueue;
      ghost var t := T();
      s := 0;
      PendingBuffer(t, b);
      var req := FreeSlotBelow(Limit(rw));
      if req < 0 {
        if Ahead(rw) {
          UnlockKeeps(t, b);
          bh[b] := bh[b].(lock := false);
          pending := pending - {b};
          return Dropped, s;
        }
        return Sleep, s;
      }
      s := req;
      var m := Major(bh[b].dev);
      var x := Request(bh[b].dev, Cmd(rw), bh[b].block * 2, b, -1);
      CanFill(t, s, rw, b);
      EnqueueKeeps(t, s, x);
      QueuedSlot(t, s, x);
      request[req] := x;
      AddRequest(m, req, t, x);
      r := Queued;
    }

    /** The search for a free slot, downwards from the limit. */
    method FreeSlotBelow(limit: nat) returns (req: int)
      requires limit <= request.Length
      ensures -1 <= req < limit && (req >= 0 ==> request[req].dev < 0)
      ensures forall x: nat | req < x < limit :: request[x].dev >= 0
    {
      req := limit - 1;
      while req >= 0
        invariant -1 <= req < limit
        invariant forall x: nat | req < x < limit :: request[x].dev >= 0
      {
        if request[req].dev < 0 { return; }
        req := req - 1;
      }
    }

    /** add_request, for a slot that has just been filled; t is the table before. */
    method AddRequest(m: nat, req: nat, ghost t: Table, ghost r: Request)
      requires request.Length == NR_REQUEST && current.Length == NR_BLK_DEV && req < NR_REQUEST
      requires CanEnqueue(t, req, r) && r.next == -1 && m == Major(r.dev)
      requires T() == Table(t.request[req := r], t.bh, t.current, t.chains, t.pending)
      modifies this, request, bh, current
      ensures T() == Enqueue(t, req, r)
    {
      ghost var c := t.chains[m];
      QueueHead(t, req, r);
      hide Ok, CanEnqueue, QueueOf, PlaceOf;
      bh[request[req].bh] := bh[request[req].bh].(dirt := false);
      pending := pending - {r.bh};
      if current[m] == -1 {
        current[m] := req;
        chains := chains[m := [req]];
        assert request[..] == t.request[req := r.(next := -1)];
        return;
      }
      var tmp := Scan(m, req, t, r);
      Behind(m, req, tmp, t, r, PlaceOf(t, r));
    }

    /** The end of add_request: the new request follows tmp. */
    method Behind(m: nat, req: nat, tmp: nat, ghost t: Table, ghost r: Request, ghost p: nat)
      requires request.Length == NR_REQUEST && req < NR_REQUEST && Shape(t) && r.dev >= 0
               && m == Major(r.dev) < NR_BLK_DEV
      requires r.bh < |t.bh| && 0 < p <= |t.chains[m]| && tmp == t.chains[m][p - 1] && tmp != req && tmp < NR_REQUEST
      requires T() == Table(t.request[req := r], t.bh[r.bh := t.bh[r.bh].(dirt := false)], t.current, t.chains,
               t.pending - {r.bh})
      modifies `chains, request
      ensures T() == Splice(t, req, r, p)
    {
      ghost var c := t.chains[m];
      request[req] := request[req].(next := request[tmp].next);
      request[tmp] := request[tmp].(next := req);
      chains := chains[m := c[..p] + [req] + c[p..]];
      assert request[..] == t.request[req := r.(next := t.request[tmp].next)][tmp := t.request[tmp].(next := req)];
    }

    /** The scan of add_request: the request that the new one goes behind. */
    method Scan(m: nat, req: nat, ghost t: Table, ghost r: Request) returns (tmp: nat)
      requires current.Length == NR_BLK_DEV && r.dev >= 0 && m == Major(r.dev) && CanEnqueue(t, req, r)
      requires request.Length == NR_REQUEST && m < NR_BLK_DEV && req < NR_REQUEST
      requires Shape(t) && request[..] == t.request[req := r] && current[..] == t.current && current[m] != -1
               && t.chains[m] != []
      ensures Found(t, req, r, tmp)
    {
      tmp := current[m];
      ghost var i, f := 0, request[..];
      ScanBegins(t, req, r);
      hide *;
      while request[tmp].next != -1
        invariant tmp < NR_REQUEST && Scanned(t, req, r, i, tmp)
        decreases |t.chains[m]| - i
      {
        ScanOn(t, req, r, i, tmp);
        assert f[tmp] == request[tmp] && f[req] == request[req];
        var next := request[tmp].next;
        assert f[next] == request[next];
        if (InOrder(KeyOf(request[tmp]), KeyOf(request[req])) || !InOrder(KeyOf(request[tmp]), KeyOf(request[next])))
           && InOrder(KeyOf(request[req]), KeyOf(request[next])) {
          return;
        }
        tmp := next;
        i := i + 1;
      }
      assert f[tmp] == request[tmp];
      ScanEnds(t, req, r, i, tmp);
    }

    /** end_request: the current request of major m is done. */
    method EndRequest(m: nat, uptodate: bool)
      requires Valid() && m < NR_BLK_DEV && current[m] != -1
      modifies this, request, bh, current
      ensures Valid() && CanDequeue(old(T()), m)
      ensures old(T()).request[old(T()).chains[m][0]].bh < |old(T()).bh| && T() == Dequeue(old(T()), m, uptodate)
      ensures forall k: nat | k < NR_BLK_DEV ::
                QueueOf(T(), k) == if k == m then QueueOf(old(T()), k)[1..] else QueueOf(old(T()), k)
    {
      ghost var t := T();
      assert Linked(t.request, t.current[m], t.chains[m]);
      CurrentSlot(t, m);
      DequeueKeeps(t, m, uptodate);
      var s := current[m];
      var b := request[s].bh;
      bh[b] := bh[b].(uptodate := uptodate);
      assert bh[b].lock;                      // unlock_buffer has nothing to complain about
      bh[b] := bh[b].(lock := false);
      request[s] := request[s].(dev := -1);
      current[m] := request[s].next;
      chains := chains[m := chains[m][1..]];
      assert bh[..] == t.bh[b := t.bh[b].(lock := false, uptodate := uptodate)];
      assert T() == Dequeue(t, m, uptodate);
    }
  }

  lemma QueueHead(t: Table, req: nat, r: Request)
    requires CanEnqueue(t, req, r)
    ensures var c := t.chains[Major(r.dev)]; t.current[Major(r.dev)] == if c == [] then -1 else c[0]
    ensures r.bh < |t.bh| && Shape(t) && r.dev >= 0 && Major(r.dev) < NR_BLK_DEV
  {
    assert Linked(t.request, t.current[Major(r.dev)], t.chains[Major(r.dev)]);
  }

  lemma PendingBuffer(t: Table, b: nat)
    requires Ok(t) && b in t.pending
    ensures Shape(t) && b < |t.bh|
  {}

  lemma CanFill(t: Table, s: nat, rw: Command, b: nat)
    requires Ok(t) && b in t.pending && s < Limit(rw) && Shape(t) && b < |t.bh| && t.request[s].dev < 0
             && Major(t.bh[b].dev) < NR_BLK_DEV
    ensures CanEnqueue(t, s, RequestFor(t, rw, b))
  {}

  lemma QueuedSlot(t: Table, s: nat, r: Request)
    requires CanEnqueue(t, s, r)
    ensures var u := Enqueue(t, s, r);
            && s < |u.request| && u.request[s] == r.(next := u.request[s].next)
            && r.bh < |u.bh| && u.bh[r.bh].lock && !u.bh[r.bh].dirt
  {
    Splices(t, s, r, PlaceOf(t, r));
  }

  /** What the scan of add_request reads at position i, in terms of slots and of ranks. */
  ghost predicate StepFacts(t: Table, req: nat, r: Request, i: nat)
    requires Shape(t) && req < NR_REQUEST && r.dev >= 0 && Major(r.dev) < NR_BLK_DEV
  {
    var c, q, x, f := t.chains[Major(r.dev)], QueueOf(t, Major(r.dev)), Rank(KeyOf(r)), t.request[req := r];
    && i < |c| && |q| == |c| && c[i] != req && f[c[i]].dev >= 0
    && f[c[i]].next == (if i + 1 < |c| then c[i + 1] else -1)
    && (i + 1 == |c| ==> Place(q, x, i) == i + 1)
    && (i + 1 < |c| ==>
          && c[i + 1] < NR_REQUEST && f[c[i + 1]].dev >= 0
          && Place(q, x, i) == if (InOrder(KeyOf(f[c[i]]), KeyOf(r)) || !InOrder(KeyOf(f[c[i]]), KeyOf(f[c[i + 1]])))
                                  && InOrder(KeyOf(r), KeyOf(f[c[i + 1]])) then i + 1 else Place(q, x, i + 1))
  }

  lemma Step(t: Table, req: nat, r: Request, i: nat)
    requires CanEnqueue(t, req, r) && i < |t.chains[Major(r.dev)]|
    ensures Shape(t) && r.dev >= 0 && StepFacts(t, req, r, i)
  {
    var m := Major(r.dev);
    var c, q, x := t.chains[m], QueueOf(t, m), Rank(KeyOf(r));
    FreeSlot(t, req, m);
    QueuedKey(t, m, i);
    NewKey(t, req, r);
    assert c[i] in c;
    if i + 1 < |c| {
      QueuedKey(t, m, i + 1);
      assert c[i + 1] in c;
    }
    hide Ok, CanEnqueue, QueueOf;
    RankOrders(KeyOf(t.request[c[i]]), KeyOf(r));
    if i + 1 < |c| {
      RankOrders(KeyOf(t.request[c[i]]), KeyOf(t.request[c[i + 1]]));
      RankOrders(KeyOf(r), KeyOf(t.request[c[i + 1]]));
    }
  }

  /** The scan has come to the request at position i without finding the place of the new one. */
  ghost predicate Scanned(t: Table, req: nat, r: Request, i: nat, tmp: nat) {
    && CanEnqueue(t, req, r) && i < |t.chains[Major(r.dev)]| && tmp == t.chains[Major(r.dev)][i]
    && PlaceOf(t, r) == Place(QueueOf(t, Major(r.dev)), Rank(KeyOf(r)), i)
  }

  /** The scan may stop behind tmp. */
  ghost predicate Found(t: Table, req: nat, r: Request, tmp: nat) {
    && Shape(t) && r.dev >= 0 && Major(r.dev) < NR_BLK_DEV && tmp < NR_REQUEST && tmp != req
    && 0 < PlaceOf(t, r) <= |t.chains[Major(r.dev)]| && tmp == t.chains[Major(r.dev)][PlaceOf(t, r) - 1]
  }

  lemma ScanBegins(t: Table, req: nat, r: Request)
    requires CanEnqueue(t, req, r) && t.chains[Major(r.dev)] != []
    ensures Scanned(t, req, r, 0, t.chains[Major(r.dev)][0])
    ensures t.current[Major(r.dev)] == t.chains[Major(r.dev)][0] < NR_REQUEST
  {
    QueueHead(t, req, r);
    Step(t, req, r, 0);
  }

  lemma ScanOn(t: Table, req: nat, r: Request, i: nat, tmp: nat)
    requires Scanned(t, req, r, i, tmp) && tmp < NR_REQUEST && req < NR_REQUEST && |t.request| == NR_REQUEST
    requires t.request[req := r][tmp].next != -1
    ensures var f := t.request[req := r];
            var next := f[tmp].next;
            && f[tmp].dev >= 0 && 0 <= next < NR_REQUEST && f[next].dev >= 0 && i + 1 < |t.chains[Major(r.dev)]|
            && if (InOrder(KeyOf(f[tmp]), KeyOf(f[req])) || !InOrder(KeyOf(f[tmp]), KeyOf(f[next])))
               && InOrder(KeyOf(f[req]), KeyOf(f[next]))
               then Found(t, req, r, tmp) else Scanned(t, req, r, i + 1, next)
  {
    Step(t, req, r, i);
    hide CanEnqueue, QueueOf, Place, PlaceOf, InOrder, KeyOf, Rank;
  }

  lemma ScanEnds(t: Table, req: nat, r: Request, i: nat, tmp: nat)
    requires Scanned(t, req, r, i, tmp) && tmp < NR_REQUEST && req < NR_REQUEST && |t.request| == NR_REQUEST
    requires t.request[req := r][tmp].next == -1
    ensures Found(t, req, r, tmp)
  {
    Step(t, req, r, i);
    hide CanEnqueue, QueueOf, Place, PlaceOf, InOrder, KeyOf, Rank;
  }

  lemma QueuedKey(t: Table, m: nat, i: nat)
    requires Ok(t) && m < NR_BLK_DEV && i < |t.chains[m]|
    ensures var c := t.chains[m]; var f := t.request[c[i]];
            && f.dev >= 0 && IsKey(KeyOf(f)) && Rank(KeyOf(f)) == QueueOf(t, m)[i]
            && f.next == (if i + 1 < |c| then c[i + 1] else -1)
  {
    SlotInQueue(t, m, i);
    assert Linked(t.request, t.current[m], t.chains[m]);
    assert NextIs(t.request, t.chains[m], i);
  }

  lemma NewKey(t: Table, s: nat, r: Request)
    requires CanEnqueue(t, s, r)
    ensures Shape(t) && r.dev >= 0 && IsKey(KeyOf(r))
  {}
}
