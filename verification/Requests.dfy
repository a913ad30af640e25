/** The request table of kernel/blk_drv/ll_rw_blk.c: 32 slots threaded into one queue per major
    device number, and the locks of the buffers behind them. */
module Requests {
  import opened Buffers
  import opened Counting
  import opened Elevator

  const NR_REQUEST := 32
  const WRITE_SLOTS := 21            // (NR_REQUEST * 2) / 3
  const NR_BLK_DEV := 7
  const BLOCKS := 0x8000_0000        // sector numbers are 32 bits and twice the block number

  datatype Request = Request(dev: int, cmd: nat, sector: nat, bh: nat, next: int)

  function Major(dev: nat): nat { dev / 256 }

  function KeyOf(r: Request): Key { Key(r.cmd, if r.dev >= 0 then r.dev else 0, r.sector) }

  /** The table as a value.  `chains[m]` are the slots of major m in queue order; `pending` are the
      buffers locked by processes that still look for a slot. */
  datatype Table = Table(request: seq<Request>, bh: seq<Buffer>, current: seq<int>,
                         chains: seq<seq<nat>>, pending: set<nat>)

  // ---- The invariant ----

  predicate Shape(t: Table) {
    && |t.request| == NR_REQUEST && |t.current| == |t.chains| == NR_BLK_DEV
    && (forall m, i | 0 <= m < NR_BLK_DEV && 0 <= i < |t.chains[m]| :: t.chains[m][i] < NR_REQUEST)
  }

  /** Link i of a chain: the pointer in slot chain[i]. */
  predicate NextIs(request: seq<Request>, chain: seq<nat>, i: nat)
    requires i < |chain| && chain[i] < |request|
  {
    request[chain[i]].next == if i + 1 < |chain| then chain[i + 1] else -1
  }

  /** The pointers of one queue spell its chain. */
  predicate Linked(request: seq<Request>, current: int, chain: seq<nat>)
    requires forall i | 0 <= i < |chain| :: chain[i] < |request|
  {
    && current == (if chain == [] then -1 else chain[0])
    && forall i | 0 <= i < |chain| :: NextIs(request, chain, i)
  }

  predicate InQueue(t: Table, m: nat, s: nat)
    requires Shape(t)
  {
    m < NR_BLK_DEV && s in t.chains[m]
  }

  /** A slot of queue m carries a read or write for a locked buffer, and writes stay in the low slots. */
  predicate SlotOk(t: Table, m: nat, s: nat)
    requires Shape(t) && s < NR_REQUEST
  {
    var r := t.request[s];
    && r.dev >= 0 && Major(r.dev) == m && r.cmd <= WRITE && (r.cmd == WRITE ==> s < WRITE_SLOTS)
    && r.bh < |t.bh| && r.bh !in t.pending
    && t.bh[r.bh].lock && t.bh[r.bh].dev == r.dev && t.bh[r.bh].block * 2 == r.sector
  }

  /** The occupied slots are the disjoint union of the chains. */
  ghost predicate Chained(t: Table)
    requires Shape(t)
  {
    && (forall m: nat | m < NR_BLK_DEV :: Linked(t.request, t.current[m], t.chains[m]))
    && (forall m: nat, s: nat | InQueue(t, m, s) :: SlotOk(t, m, s))
    && (forall m, i, j | 0 <= m < NR_BLK_DEV && 0 <= i < j < |t.chains[m]| :: t.chains[m][i] != t.chains[m][j])
    && (forall s: nat | s < NR_REQUEST && t.request[s].dev >= 0 :: InQueue(t, Major(t.request[s].dev), s))
  }

  predicate Occupied(t: Table, s: nat) { s < |t.request| && t.request[s].dev >= 0 }

  /** A buffer is locked exactly while it is pending or queued, and it is queued once. */
  ghost predicate Locked(t: Table) {
    && (forall b | b in t.pending :: b < |t.bh| && t.bh[b].lock)
    && (forall b: nat | b < |t.bh| && t.bh[b].lock && b !in t.pending ::
          exists s: nat :: Occupied(t, s) && t.request[s].bh == b)
    && (forall s: nat, u: nat | Occupied(t, s) && Occupied(t, u) && s != u :: t.request[s].bh != t.request[u].bh)
  }

  /** What the buffer cache guarantees: one buffer per block. */
  predicate BuffersOk(bufs: seq<Buffer>) {
    && (forall b | 0 <= b < |bufs| ::
          bufs[b].dev < DEVICES && bufs[b].block < BLOCKS && (bufs[b].lock ==> bufs[b].dev != 0))
    && OneBufferPerBlock(bufs)
  }

  function RankAt(request: seq<Request>, s: nat): nat {
    if s < |request| && request[s].dev >= 0 then Rank(KeyOf(request[s])) else 0
  }

  function QueueOf(t: Table, m: nat): (q: Queue)
    ensures m < |t.chains| ==>
              |q| == |t.chains[m]| && forall i | 0 <= i < |q| :: q[i] == RankAt(t.request, t.chains[m][i])
  {
    if m < |t.chains| then seq(|t.chains[m]|, i requires 0 <= i < |t.chains[m]| => RankAt(t.request, t.chains[m][i]))
    else []
  }

  ghost predicate Ok(t: Table) {
    && Shape(t) && Chained(t) && Locked(t) && BuffersOk(t.bh)
    && forall m: nat | m < NR_BLK_DEV :: TwoSweeps(QueueOf(t, m))
  }

  // ---- The state changes ----

  function SetBuffers(t: Table, bufs: seq<Buffer>): Table {
    Table(t.request, bufs, t.current, t.chains, t.pending)
  }

  /** lock_buffer, once the buffer is free */
  function Lock(t: Table, b: nat): Table
    requires b < |t.bh|
  {
    Table(t.request, t.bh[b := t.bh[b].(lock := true)], t.current, t.chains, t.pending + {b})
  }

  /** unlock_buffer by the process that locked it, before anything was queued */
  function Unlock(t: Table, b: nat): Table
    requires b < |t.bh|
  {
    Table(t.request, t.bh[b := t.bh[b].(lock := false)], t.current, t.chains, t.pending - {b})
  }

  /** The free slot s is filled with r and becomes number p of the queue of its device. */
  function Splice(t: Table, s: nat, r: Request, p: nat): Table
    requires Shape(t) && s < NR_REQUEST && r.dev >= 0 && r.bh < |t.bh| && Major(r.dev) < NR_BLK_DEV
    requires var c := t.chains[Major(r.dev)]; p <= |c| && (c != [] ==> p > 0)
  {
    var m := Major(r.dev);
    var c := t.chains[m];
    var bh := t.bh[r.bh := t.bh[r.bh].(dirt := false)];
    if c == [] then
      Table(t.request[s := r.(next := -1)], bh, t.current[m := s], t.chains[m := [s]], t.pending - {r.bh})
    else
      var prev := c[p - 1];
      Table(t.request[s := r.(next := t.request[prev].next)][prev := t.request[prev].(next := s)], bh, t.current,
            t.chains[m := c[..p] + [s] + c[p..]], t.pending - {r.bh})
  }

  function PlaceOf(t: Table, r: Request): (p: nat)
    requires Shape(t) && r.dev >= 0 && Major(r.dev) < NR_BLK_DEV
    ensures p <= |t.chains[Major(r.dev)]| && (t.chains[Major(r.dev)] != [] ==> p > 0)
  {
    if t.chains[Major(r.dev)] == [] then 0 else Place(QueueOf(t, Major(r.dev)), Rank(KeyOf(r)), 0)
  }

  /** add_request */
  function Enqueue(t: Table, s: nat, r: Request): Table
    requires Shape(t) && s < NR_REQUEST && r.dev >= 0 && r.bh < |t.bh| && Major(r.dev) < NR_BLK_DEV
  {
    Splice(t, s, r, PlaceOf(t, r))
  }

  /** end_request: the current request of major m leaves its slot and its buffer. */
  function Dequeue(t: Table, m: nat, uptodate: bool): Table
    requires Shape(t) && m < NR_BLK_DEV && t.chains[m] != [] && t.request[t.chains[m][0]].bh < |t.bh|
  {
    var s := t.chains[m][0];
    var b := t.request[s].bh;
    Table(t.request[s := t.request[s].(dev := -1)], t.bh[b := t.bh[b].(lock := false, uptodate := uptodate)],
          t.current[m := t.request[s].next], t.chains[m := t.chains[m][1..]], t.pending)
  }

  // ---- They keep the invariant ----

  lemma SlotInQueue(t: Table, m: nat, i: nat)
    requires Shape(t) && Chained(t) && m < NR_BLK_DEV && i < |t.chains[m]|
    ensures SlotOk(t, m, t.chains[m][i])
  {
    assert InQueue(t, m, t.chains[m][i]);
  }

  lemma SameQueue(t: Table, u: Table, m: nat)
    requires m < |t.chains| == |u.chains| && t.chains[m] == u.chains[m]
    requires forall i | 0 <= i < |t.chains[m]| :: RankAt(t.request, t.chains[m][i]) == RankAt(u.request, t.chains[m][i])
    ensures QueueOf(u, m) == QueueOf(t, m)
  {}

  /** Two requests of one device never have the same key. */
  lemma RankDiffers(t: Table, r: Request, u: Request)
    requires BuffersOk(t.bh) && r.bh < |t.bh| && u.bh < |t.bh| && r.bh != u.bh
    requires r.dev == t.bh[r.bh].dev && u.dev == t.bh[u.bh].dev && r.dev != 0 && r.cmd <= WRITE && u.cmd <= WRITE
    requires r.sector == t.bh[r.bh].block * 2 && u.sector == t.bh[u.bh].block * 2
    ensures Rank(KeyOf(r)) != Rank(KeyOf(u)) && Rank(KeyOf(r)) < RANKS
  {
    RankOrders(KeyOf(r), KeyOf(u));
  }

  lemma QueuedPair(t: Table, m: nat, i: nat, j: nat)
    requires Ok(t) && m < NR_BLK_DEV && i < |t.chains[m]| && j < |t.chains[m]| && i != j
    ensures RankAt(t.request, t.chains[m][i]) != RankAt(t.request, t.chains[m][j])
  {
    var s, u := t.chains[m][i], t.chains[m][j];
    SlotInQueue(t, m, i);
    SlotInQueue(t, m, j);
    assert s != u by { assert Chained(t); }
    assert Occupied(t, s) && Occupied(t, u);
    RankDiffers(t, t.request[s], t.request[u]);
  }

  lemma QueuedRank(t: Table, m: nat, i: nat)
    requires Ok(t) && m < NR_BLK_DEV && i < |t.chains[m]|
    ensures RankAt(t.request, t.chains[m][i]) < RANKS
  {
    SlotInQueue(t, m, i);
    var k := KeyOf(t.request[t.chains[m][i]]);
    assert IsKey(k);
    RankOrders(k, k);
  }

  lemma QueueDistinct(t: Table, m: nat)
    requires Ok(t) && m < NR_BLK_DEV
    ensures Distinct(QueueOf(t, m)) && Ranks(QueueOf(t, m))
  {
    var q := QueueOf(t, m);
    assert |q| == |t.chains[m]|;
    hide Ok, RankAt;
    forall i, j | 0 <= i < j < |q| ensures q[i] != q[j] { QueuedPair(t, m, i, j); }
    forall i | 0 <= i < |q| ensures q[i] < RANKS { QueuedRank(t, m, i); }
  }

  /** What make_request has established when it fills slot s. */
  ghost predicate CanEnqueue(t: Table, s: nat, r: Request) {
    && Ok(t) && s < NR_REQUEST && t.request[s].dev < 0
    && r.bh < |t.bh| && r.bh in t.pending && r.dev == t.bh[r.bh].dev && r.sector == t.bh[r.bh].block * 2
    && r.cmd <= WRITE && (r.cmd == WRITE ==> s < WRITE_SLOTS) && Major(r.dev) < NR_BLK_DEV
  }

  ghost predicate CanSplice(t: Table, s: nat, r: Request, p: nat) {
    CanEnqueue(t, s, r) && (var c := t.chains[Major(r.dev)]; p <= |c| && (c != [] ==> p > 0))
  }

  // Splicing in pointers, for one chain.

  lemma LinksSpliced(f: seq<Request>, g: seq<Request>, current: int, c: seq<nat>, s: nat, r: Request, p: nat)
    requires (forall i | 0 <= i < |c| :: c[i] < |f|) && s < |f| && s !in c && 0 < p <= |c|
    requires forall i, j | 0 <= i < j < |c| :: c[i] != c[j]
    requires Linked(f, current, c)
    requires g == f[s := r.(next := f[c[p - 1]].next)][c[p - 1] := f[c[p - 1]].(next := s)]
    ensures var d := c[..p] + [s] + c[p..];
            && (forall i | 0 <= i < |d| :: d[i] < |g|) && Linked(g, current, d)
            && forall i, j | 0 <= i < j < |d| :: d[i] != d[j]
  {
    var d := c[..p] + [s] + c[p..];
    forall i | 0 <= i < |c| ensures c[i] in c && c[i] != s {}
    forall i | 0 <= i < |d| ensures d[i] < |g| && NextIs(g, d, i) {
      if i == p { assert NextIs(f, c, p - 1); }
      if i < p {
        SpliceBefore(f, g, current, c, s, r, p, i);
        assert d[i] == c[i];
      } else if i > p {
        SpliceBehind(f, g, current, c, s, r, p, i);
        assert d[i] == c[i - 1];
      }
    }
    SplicedApart(c, s, p);
  }

  lemma SplicedApart(c: seq<nat>, s: nat, p: nat)
    requires s !in c && 0 < p <= |c| && forall i, j | 0 <= i < j < |c| :: c[i] != c[j]
    ensures var d := c[..p] + [s] + c[p..]; forall i, j | 0 <= i < j < |d| :: d[i] != d[j]
  {
    var d := c[..p] + [s] + c[p..];
    forall i, j | 0 <= i < j < |d| ensures d[i] != d[j] {
      if i != p && j != p { assert c[if i < p then i else i - 1] != c[if j < p then j else j - 1]; }
    }
  }

  lemma SpliceBefore(f: seq<Request>, g: seq<Request>, current: int, c: seq<nat>, s: nat, r: Request, p: nat, i: nat)
    requires (forall k | 0 <= k < |c| :: c[k] < |f|) && s < |f| && i < p <= |c| && c[i] != s
    requires forall k, j | 0 <= k < j < |c| :: c[k] != c[j]
    requires Linked(f, current, c)
    requires g == f[s := r.(next := f[c[p - 1]].next)][c[p - 1] := f[c[p - 1]].(next := s)]
    ensures g[c[i]].next == if i == p - 1 then s else c[i + 1]
  {
    assert NextIs(f, c, i);
    if i != p - 1 { assert c[i] != c[p - 1]; }
  }

  lemma SpliceBehind(f: seq<Request>, g: seq<Request>, current: int, c: seq<nat>, s: nat, r: Request, p: nat, i: nat)
    requires (forall k | 0 <= k < |c| :: c[k] < |f|) && s < |f| && 0 < p < i <= |c| && c[i - 1] != s
    requires forall k, j | 0 <= k < j < |c| :: c[k] != c[j]
    requires Linked(f, current, c)
    requires g == f[s := r.(next := f[c[p - 1]].next)][c[p - 1] := f[c[p - 1]].(next := s)]
    ensures g[c[i - 1]].next == if i < |c| then c[i] else -1
  {
    assert NextIs(f, c, i - 1);
    assert c[i - 1] != c[p - 1];
  }

  lemma LinksElsewhere(f: seq<Request>, g: seq<Request>, current: int, c: seq<nat>)
    requires |g| == |f| && (forall i | 0 <= i < |c| :: c[i] < |f|) && Linked(f, current, c)
    requires forall x | x in c :: g[x].next == f[x].next
    ensures Linked(g, current, c)
  {
    forall i | 0 <= i < |c| ensures NextIs(g, c, i) { assert c[i] in c && NextIs(f, c, i); }
  }

  /** Which fields an insertion changes. */
  ghost predicate Spliced(t: Table, u: Table, s: nat, r: Request) {
    && Shape(t) && Shape(u) && |u.bh| == |t.bh| && s < NR_REQUEST && r.dev >= 0
    && u.request[s] == r.(next := u.request[s].next)
    && (forall x | 0 <= x < NR_REQUEST && x != s :: u.request[x] == t.request[x].(next := u.request[x].next))
    && (forall b | 0 <= b < |t.bh| :: u.bh[b] == t.bh[b].(dirt := u.bh[b].dirt))
    && u.pending == t.pending - {r.bh}
    && (forall m: nat, x: nat | m < NR_BLK_DEV ::
          x in u.chains[m] <==> x in t.chains[m] || (x == s && m == Major(r.dev)))
  }

  lemma FreeSlot(t: Table, s: nat, m: nat)
    requires Ok(t) && s < NR_REQUEST && t.request[s].dev < 0 && m < NR_BLK_DEV
    ensures s !in t.chains[m]
  {
    assert InQueue(t, m, s) ==> SlotOk(t, m, s);
  }

  lemma Splices(t: Table, s: nat, r: Request, p: nat)
    requires CanSplice(t, s, r, p)
    ensures Spliced(t, Splice(t, s, r, p), s, r)
  {
    var m := Major(r.dev);
    var c := t.chains[m];
    var u := Splice(t, s, r, p);
    if c != [] {
      SlotInQueue(t, m, p - 1);
      var d := u.chains[m];
      forall x: nat ensures x in d <==> x in c || x == s { assert c == c[..p] + c[p..]; }
      forall i | 0 <= i < |d| ensures d[i] < NR_REQUEST { assert d[i] in d; }
    }
  }

  lemma SplicedSlots(t: Table, u: Table, s: nat, r: Request)
    requires CanEnqueue(t, s, r) && Spliced(t, u, s, r)
    ensures forall m: nat, x: nat | InQueue(u, m, x) :: SlotOk(u, m, x)
    ensures forall x: nat | x < NR_REQUEST && u.request[x].dev >= 0 :: InQueue(u, Major(u.request[x].dev), x)
  {
    forall m: nat, x: nat | InQueue(u, m, x) ensures SlotOk(u, m, x) {
      if x != s { assert InQueue(t, m, x); } else { FreeSlot(t, s, m); }
    }
    forall x: nat | x < NR_REQUEST && u.request[x].dev >= 0 ensures InQueue(u, Major(u.request[x].dev), x) {
      if x != s { assert InQueue(t, Major(t.request[x].dev), x); }
    }
  }

  lemma SplicedLocks(t: Table, u: Table, s: nat, r: Request)
    requires CanEnqueue(t, s, r) && Spliced(t, u, s, r)
    ensures Locked(u) && BuffersOk(u.bh)
  {
    forall b: nat | b < |u.bh| && u.bh[b].lock && b !in u.pending
      ensures exists x: nat :: Occupied(u, x) && u.request[x].bh == b
    {
      if b == r.bh {
        assert Occupied(u, s);
      } else {
        var x: nat :| Occupied(t, x) && t.request[x].bh == b;
        assert Occupied(u, x) && u.request[x].bh == b;
      }
    }
    forall x: nat | Occupied(t, x) ensures t.request[x].bh != r.bh {
      assert InQueue(t, Major(t.request[x].dev), x);
    }
    forall x: nat, y: nat | Occupied(u, x) && Occupied(u, y) && x != y ensures u.request[x].bh != u.request[y].bh {
      if x != s { assert Occupied(t, x); }
      if y != s { assert Occupied(t, y); }
    }
  }

  lemma SpliceLinks(t: Table, s: nat, r: Request, p: nat, k: nat)
    requires CanSplice(t, s, r, p) && k < NR_BLK_DEV && Shape(Splice(t, s, r, p))
    ensures var u := Splice(t, s, r, p);
            && Linked(u.request, u.current[k], u.chains[k])
            && forall i, j | 0 <= i < j < |u.chains[k]| :: u.chains[k][i] != u.chains[k][j]
  {
    var u := Splice(t, s, r, p);
    var m := Major(r.dev);
    var c := t.chains[k];
    FreeSlot(t, s, k);
    assert Linked(t.request, t.current[k], c);
    if k != m {
      forall x | x in c ensures u.request[x].next == t.request[x].next {
        assert InQueue(t, k, x);
        if t.chains[m] != [] { SlotInQueue(t, m, p - 1); }
      }
      LinksElsewhere(t.request, u.request, t.current[k], c);
    } else if c != [] {
      LinksSpliced(t.request, u.request, t.current[k], c, s, r, p);
    }
  }

  lemma SpliceQueues(t: Table, s: nat, r: Request, p: nat, k: nat)
    requires CanSplice(t, s, r, p) && k < NR_BLK_DEV && Spliced(t, Splice(t, s, r, p), s, r)
    ensures QueueOf(Splice(t, s, r, p), k) ==
            (var q := QueueOf(t, k); if k != Major(r.dev) then q else q[..p] + [Rank(KeyOf(r))] + q[p..])
  {
    hide Ok;
    var u := Splice(t, s, r, p);
    var c := t.chains[k];
    FreeSlot(t, s, k);
    forall x: nat | x < NR_REQUEST && x != s ensures RankAt(u.request, x) == RankAt(t.request, x) {}
    assert RankAt(u.request, s) == Rank(KeyOf(r));
    forall i | 0 <= i < |c| ensures RankAt(u.request, c[i]) == RankAt(t.request, c[i]) { assert c[i] in c; }
    if k != Major(r.dev) { SameQueue(t, u, k); }
  }

  /** A new request has a key that no queued request of its device has. */
  lemma NewRank(t: Table, s: nat, r: Request)
    requires CanEnqueue(t, s, r)
    ensures Rank(KeyOf(r)) !in QueueOf(t, Major(r.dev)) && Rank(KeyOf(r)) < RANKS
  {
    var m := Major(r.dev);
    var c := t.chains[m];
    forall i | 0 <= i < |c| ensures RankAt(t.request, c[i]) != Rank(KeyOf(r)) {
      SlotInQueue(t, m, i);
      RankDiffers(t, r, t.request[c[i]]);
    }
    RankOrders(KeyOf(r), KeyOf(r));
  }

  lemma EnqueueKeeps(t: Table, s: nat, r: Request)
    requires CanEnqueue(t, s, r)
    ensures Ok(Enqueue(t, s, r))
    ensures forall k: nat | k < NR_BLK_DEV ::
              QueueOf(Enqueue(t, s, r), k) == if k == Major(r.dev) then Insert(QueueOf(t, k), Rank(KeyOf(r)))
                  else QueueOf(t, k)
  {
    var p := PlaceOf(t, r);
    var u := Splice(t, s, r, p);
    Splices(t, s, r, p);
    SplicedSlots(t, u, s, r);
    SplicedLocks(t, u, s, r);
    forall k: nat | k < NR_BLK_DEV
      ensures QueueOf(u, k) == if k == Major(r.dev) then Insert(QueueOf(t, k), Rank(KeyOf(r))) else QueueOf(t, k)
      ensures Linked(u.request, u.current[k], u.chains[k]) && TwoSweeps(QueueOf(u, k))
      ensures forall i, j | 0 <= i < j < |u.chains[k]| :: u.chains[k][i] != u.chains[k][j]
    {
      SpliceQueue(t, s, r, k);
      SpliceLinks(t, s, r, p, k);
    }
  }

  lemma SpliceQueue(t: Table, s: nat, r: Request, k: nat)
    requires CanEnqueue(t, s, r) && k < NR_BLK_DEV && Spliced(t, Enqueue(t, s, r), s, r)
    ensures QueueOf(Enqueue(t, s, r), k) == if k == Major(r.dev) then Insert(QueueOf(t, k), Rank(KeyOf(r)))
            else QueueOf(t, k)
    ensures TwoSweeps(QueueOf(Enqueue(t, s, r), k))
  {
    SpliceQueues(t, s, r, PlaceOf(t, r), k);
    var q := QueueOf(t, k);
    if k == Major(r.dev) {
      NewRank(t, s, r);
      InsertKeepsTwo(q, Rank(KeyOf(r)));
      assert q == [] ==> q[..0] + [Rank(KeyOf(r))] + q[0..] == [Rank(KeyOf(r))];
    }
  }

  // ---- Completion ----

  ghost predicate CanDequeue(t: Table, m: nat) { Ok(t) && m < NR_BLK_DEV && t.chains[m] != [] }

  lemma CurrentSlot(t: Table, m: nat)
    requires CanDequeue(t, m)
    ensures var s := t.chains[m][0];
            && SlotOk(t, m, s) && t.current[m] == s && t.request[s].bh < |t.bh|
            && t.request[s].next == (if |t.chains[m]| > 1 then t.chains[m][1] else -1)
  {
    SlotInQueue(t, m, 0);
    assert NextIs(t.request, t.chains[m], 0);
    assert Linked(t.request, t.current[m], t.chains[m]);
  }

  lemma DequeueSlots(t: Table, m: nat, uptodate: bool)
    requires CanDequeue(t, m) && t.request[t.chains[m][0]].bh < |t.bh|
    ensures var u := Dequeue(t, m, uptodate);
            && Shape(u)
            && (forall k: nat, x: nat | InQueue(u, k, x) :: SlotOk(u, k, x) && InQueue(t, k, x) && x != t.chains[m][0])
            && (forall x: nat | x < NR_REQUEST && u.request[x].dev >= 0 :: InQueue(u, Major(u.request[x].dev), x))
  {
    CurrentSlot(t, m);
    var u := Dequeue(t, m, uptodate);
    var c, s := t.chains[m], t.chains[m][0];
    assert c == [s] + c[1..];
    forall k: nat, x: nat | InQueue(u, k, x) ensures SlotOk(u, k, x) && InQueue(t, k, x) && x != s {
      assert InQueue(t, k, x);
      if k == m { assert x != s; }
      assert Occupied(t, x) && Occupied(t, s);
    }
    forall x: nat | x < NR_REQUEST && u.request[x].dev >= 0 ensures InQueue(u, Major(u.request[x].dev), x) {
      assert InQueue(t, Major(t.request[x].dev), x);
    }
  }

  lemma DequeueLocks(t: Table, m: nat, uptodate: bool)
    requires CanDequeue(t, m) && t.request[t.chains[m][0]].bh < |t.bh|
    ensures var u := Dequeue(t, m, uptodate); Locked(u) && BuffersOk(u.bh)
  {
    CurrentSlot(t, m);
    var u := Dequeue(t, m, uptodate);
    var s := t.chains[m][0];
    forall b: nat | b < |u.bh| && u.bh[b].lock && b !in u.pending
      ensures exists x: nat :: Occupied(u, x) && u.request[x].bh == b
    {
      var x: nat :| Occupied(t, x) && t.request[x].bh == b;
      assert Occupied(u, x) && u.request[x].bh == b;
    }
    forall x: nat | Occupied(u, x) ensures Occupied(t, x) && x != s {}
    forall b | 0 <= b < |u.bh| ensures u.bh[b].dev == t.bh[b].dev && u.bh[b].block == t.bh[b].block {}
  }

  lemma DequeueLinks(t: Table, m: nat, uptodate: bool, k: nat)
    requires CanDequeue(t, m) && t.request[t.chains[m][0]].bh < |t.bh| && k < NR_BLK_DEV
    requires var u := Dequeue(t, m, uptodate);
             Shape(u) && forall x: nat | InQueue(u, k, x) :: x != t.chains[m][0]
    ensures var u := Dequeue(t, m, uptodate); Linked(u.request, u.current[k], u.chains[k])
    ensures var u := Dequeue(t, m, uptodate); QueueOf(u, k) == if k == m then QueueOf(t, k)[1..] else QueueOf(t, k)
  {
    CurrentSlot(t, m);
    var u := Dequeue(t, m, uptodate);
    var s := t.chains[m][0];
    var d := u.chains[k];
    assert Linked(t.request, t.current[k], t.chains[k]);
    forall i | 0 <= i < |d| ensures d[i] != s && d[i] == t.chains[k][if k == m then i + 1 else i] {
      assert d[i] == t.chains[k][if k == m then i + 1 else i];
      assert d[i] in d && InQueue(u, k, d[i]);
    }
    forall i | 0 <= i < |d| ensures NextIs(u.request, d, i) {
      assert NextIs(t.request, t.chains[k], if k == m then i + 1 else i);
      assert u.request[d[i]] == t.request[d[i]];
    }
    assert Linked(u.request, u.current[k], d);
    forall i | 0 <= i < |d| ensures RankAt(u.request, d[i]) == RankAt(t.request, d[i]) {}
  }

  lemma DequeueDistinct(t: Table, m: nat, uptodate: bool, k: nat)
    requires CanDequeue(t, m) && t.request[t.chains[m][0]].bh < |t.bh| && k < NR_BLK_DEV
    ensures var d := Dequeue(t, m, uptodate).chains[k]; forall i, j | 0 <= i < j < |d| :: d[i] != d[j]
  {
    hide Linked, SlotOk, Locked, BuffersOk, TwoSweeps;
    var c, d := t.chains[k], Dequeue(t, m, uptodate).chains[k];
    forall i, j | 0 <= i < j < |d| ensures d[i] != d[j] {
      if k == m { assert d[i] == c[i + 1] && d[j] == c[j + 1]; }
    }
  }

  lemma DequeueQueue(t: Table, m: nat, uptodate: bool, k: nat)
    requires CanDequeue(t, m) && t.request[t.chains[m][0]].bh < |t.bh| && k < NR_BLK_DEV
    requires var u := Dequeue(t, m, uptodate);
             Shape(u) && forall j: nat, x: nat | InQueue(u, j, x) :: x != t.chains[m][0]
    ensures var u := Dequeue(t, m, uptodate);
            QueueOf(u, k) == (if k == m then QueueOf(t, k)[1..] else QueueOf(t, k)) && QueueOk(u, k)
  {
    DequeueLinks(t, m, uptodate, k);
    DequeueDistinct(t, m, uptodate, k);
    if k == m { RemoveKeepsTwo(QueueOf(t, m)); }
  }

  lemma DequeueKeeps(t: Table, m: nat, uptodate: bool)
    requires CanDequeue(t, m)
    ensures t.request[t.chains[m][0]].bh < |t.bh| && Ok(Dequeue(t, m, uptodate))
    ensures forall k: nat | k < NR_BLK_DEV ::
              QueueOf(Dequeue(t, m, uptodate), k) == if k == m then QueueOf(t, k)[1..] else QueueOf(t, k)
  {
    CurrentSlot(t, m);
    assert |t.chains| == NR_BLK_DEV && |t.request| == NR_REQUEST && t.chains[m][0] < NR_REQUEST;
    var u := Dequeue(t, m, uptodate);
    hide *;
    DequeueSlots(t, m, uptodate);
    DequeueLocks(t, m, uptodate);
    forall k: nat | k < NR_BLK_DEV
      ensures |u.chains| == NR_BLK_DEV && QueueOf(u, k) == if k == m then QueueOf(t, k)[1..] else QueueOf(t, k)
      ensures QueueOk(u, k)
    {
      DequeueQueue(t, m, uptodate, k);
    }
    OkMade(u);
  }

  ghost predicate QueueOk(t: Table, k: nat) {
    && Shape(t) && k < NR_BLK_DEV && Linked(t.request, t.current[k], t.chains[k]) && TwoSweeps(QueueOf(t, k))
    && forall i, j | 0 <= i < j < |t.chains[k]| :: t.chains[k][i] != t.chains[k][j]
  }

  lemma OkMade(t: Table)
    requires Shape(t) && Locked(t) && BuffersOk(t.bh) && forall k: nat | k < NR_BLK_DEV :: QueueOk(t, k)
    requires forall k: nat, x: nat | InQueue(t, k, x) :: SlotOk(t, k, x)
    requires forall x: nat | x < NR_REQUEST && t.request[x].dev >= 0 :: InQueue(t, Major(t.request[x].dev), x)
    ensures Ok(t)
  {
    hide Locked, BuffersOk, SlotOk, TwoSweeps, QueueOf;
    forall m: nat, i, j | m < NR_BLK_DEV && 0 <= i < j < |t.chains[m]| ensures t.chains[m][i] != t.chains[m][j] {
      assert QueueOk(t, m);
    }
    forall m: nat | m < NR_BLK_DEV ensures Linked(t.request, t.current[m], t.chains[m]) && TwoSweeps(QueueOf(t, m)) {
      assert QueueOk(t, m);
    }
  }

  // ---- Buffers outside the queues ----

  /** Slots and chains are the same, and so is every buffer that a slot names. */
  lemma BufferChange(t: Table, u: Table, b: nat)
    requires Ok(t) && b < |t.bh| && u.request == t.request && u.current == t.current && u.chains == t.chains
    requires |u.bh| == |t.bh| && forall c: nat | c < |t.bh| && c != b :: u.bh[c] == t.bh[c]
    requires forall c | c != b :: c in u.pending <==> c in t.pending
    requires u.bh[b].lock ==> b in u.pending
    requires b in u.pending ==> u.bh[b].lock
    requires t.bh[b].lock ==> b in t.pending
    requires BuffersOk(u.bh)
    ensures Ok(u) && forall m: nat | m < NR_BLK_DEV :: QueueOf(u, m) == QueueOf(t, m)
  {
    forall m: nat, x: nat | InQueue(u, m, x) ensures SlotOk(u, m, x) { assert InQueue(t, m, x); }
    forall m: nat | m < NR_BLK_DEV ensures QueueOf(u, m) == QueueOf(t, m) { SameQueue(t, u, m); }
    forall c: nat | c < |u.bh| && u.bh[c].lock && c !in u.pending
      ensures exists x: nat :: Occupied(u, x) && u.request[x].bh == c
    {
      var x: nat :| Occupied(t, x) && t.request[x].bh == c;
      assert Occupied(u, x);
    }
    forall s: nat, v: nat | Occupied(u, s) && Occupied(u, v) && s != v ensures u.request[s].bh != u.request[v].bh {
      assert Occupied(t, s) && Occupied(t, v);
    }
  }

  /** The buffer cache may do to buffers that are not locked what it likes, as long as there is one for each
      block, and to locked ones anything that leaves them their lock and their block. */
  lemma CacheKeeps(t: Table, bufs: seq<Buffer>)
    requires Ok(t) && |bufs| == |t.bh| && BuffersOk(bufs)
    requires forall b: nat | b < |bufs| :: SameWhileLocked(t.bh[b], bufs[b])
    ensures Ok(SetBuffers(t, bufs)) && forall m: nat | m < NR_BLK_DEV ::
            QueueOf(SetBuffers(t, bufs), m) == QueueOf(t, m)
  {
    var u := SetBuffers(t, bufs);
    assert Shape(u);
    forall m: nat, x: nat | InQueue(u, m, x) ensures SlotOk(u, m, x) {
      assert InQueue(t, m, x);
      assert SameWhileLocked(t.bh[t.request[x].bh], bufs[t.request[x].bh]);
    }
    forall m: nat | m < NR_BLK_DEV ensures QueueOf(u, m) == QueueOf(t, m) && QueueOk(u, m) { SameQueue(t, u, m); }
    SameLocks(t, u);
    OkMade(u);
  }

  predicate SameWhileLocked(x: Buffer, y: Buffer) { x.lock == y.lock && (x.lock ==> Is(y, x.dev, x.block)) }

  lemma SameLocks(t: Table, u: Table)
    requires Locked(t) && u.request == t.request && u.pending == t.pending && |u.bh| == |t.bh|
    requires forall b: nat | b < |t.bh| :: u.bh[b].lock == t.bh[b].lock
    ensures Locked(u)
  {
    forall b: nat | b < |u.bh| && u.bh[b].lock && b !in u.pending
      ensures exists x: nat :: Occupied(u, x) && u.request[x].bh == b
    {
      var x: nat :| Occupied(t, x) && t.request[x].bh == b;
      assert Occupied(u, x);
    }
    forall s: nat, v: nat | Occupied(u, s) && Occupied(u, v) && s != v ensures u.request[s].bh != u.request[v].bh {
      assert Occupied(t, s) && Occupied(t, v);
    }
  }

  /** What the order of a queue means: within a sweep reads come before writes, and then lower devices and
      lower sectors first. */
  lemma QueueOrder(t: Table, m: nat, n: nat, i: nat)
    requires Ok(t) && m < NR_BLK_DEV && Sweeps(QueueOf(t, m), n) && 0 < i < |t.chains[m]| && i != n
    ensures t.chains[m][i - 1] < |t.request| && t.chains[m][i] < |t.request|
    ensures var a, b := t.request[t.chains[m][i - 1]], t.request[t.chains[m][i]];
            || (a.cmd == 0 && b.cmd == 1)
            || (a.cmd == b.cmd && (a.dev < b.dev || (a.dev == b.dev && a.sector < b.sector)))
  {
    SlotInQueue(t, m, i - 1);
    SlotInQueue(t, m, i);
    var a, b := t.request[t.chains[m][i - 1]], t.request[t.chains[m][i]];
    assert QueueOf(t, m)[i - 1] < QueueOf(t, m)[i];
    assert IsKey(KeyOf(a)) && IsKey(KeyOf(b));
    RankOrders(KeyOf(a), KeyOf(b));
  }

  /** At most 21 writes are queued at any time, over all devices. */
  lemma WritesBounded(t: Table, writes: set<nat>)
    requires Ok(t) && forall s | s in writes :: Occupied(t, s) && t.request[s].cmd == WRITE
    ensures |writes| <= WRITE_SLOTS
  {
    forall s | s in writes ensures s < WRITE_SLOTS { assert InQueue(t, Major(t.request[s].dev), s); }
    BelowCount(writes, WRITE_SLOTS);
  }

  lemma {:induction false} BelowCount(a: set<nat>, n: nat)
    requires forall x | x in a :: x < n
    ensures |a| <= n
  {
    if n == 0 {
      assert a == {};
    } else {
      BelowCount(a - {n - 1}, n - 1);
    }
  }
}
