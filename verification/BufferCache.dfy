/** getblk, get_hash_table and brelse of fs/buffer.c as a transition system: any number of callers,
    interleaved at the points where they may sleep, with disk transfers starting and ending at any
    time.  A caller here is one getblk call up to its brelse; a process that holds several buffers is
    several callers. */
module BufferCache {
  import opened Buffers

  /** Where a caller is.  Outside the map it is not in the cache code at all. */
  datatype Pc =
    | Looking(dev: nat, block: nat)            // at `repeat`, about to search
    | Pinned(dev: nat, block: nat, b: nat)     // get_hash_table: counted, in wait_on_buffer
    | NoneFree(dev: nat, block: nat)           // asleep on buffer_wait
    | Chosen(dev: nat, block: nat, b: nat)     // picked an unused buffer, in wait_on_buffer or sync_dev
    | Holding(dev: nat, block: nat, b: nat)    // getblk has returned b

  datatype Cache = Cache(bufs: seq<Buffer>, callers: map<nat, Pc>)

  predicate Cached(c: Cache, dev: nat, block: nat) {
    exists b | 0 <= b < |c.bufs| :: Is(c.bufs[b], dev, block)
  }

  datatype Step =
    | Call(p: nat, dev: nat, block: nat)
    | Hit(p: nat, b: nat)                      // find_buffer found b: count it
    | Miss(p: nat, b: nat)                     // not cached; the scan picked the unused buffer b
    | MissAll(p: nat)                          // not cached and nothing is unused
    | WakeUp(p: nat)                           // buffer_wait
    | HitDone(p: nat)                          // wait_on_buffer in get_hash_table returned
    | PickDone(p: nat)                         // wait_on_buffer in getblk returned
    | Release(p: nat)                          // brelse, or the b_count-- of breada
    | Lock(b: nat)                             // lock_buffer
    | Unlock(b: nat, uptodate: bool)           // end_request, or unlock_buffer when there is nothing to do
    | Mark(b: nat, dirt: bool, uptodate: bool) // users, add_request, free_block, invalidate_buffers

  predicate Enabled(c: Cache, e: Step) {
    match e
    case Call(p, dev, block) => p !in c.callers && dev != 0
    case Hit(p, b) => p in c.callers && c.callers[p].Looking? && b < |c.bufs|
        && Is(c.bufs[b], c.callers[p].dev, c.callers[p].block)
    case Miss(p, b) => p in c.callers && c.callers[p].Looking? && !Cached(c, c.callers[p].dev, c.callers[p].block)
                       && b < |c.bufs| && c.bufs[b].count == 0
    case MissAll(p) => p in c.callers && c.callers[p].Looking? && !Cached(c, c.callers[p].dev, c.callers[p].block)
                       && forall b | 0 <= b < |c.bufs| :: c.bufs[b].count != 0
    case WakeUp(p) => p in c.callers && c.callers[p].NoneFree?
    case HitDone(p) => p in c.callers && c.callers[p].Pinned? && c.callers[p].b < |c.bufs|
        && !c.bufs[c.callers[p].b].lock
    case PickDone(p) => p in c.callers && c.callers[p].Chosen? && c.callers[p].b < |c.bufs|
        && !c.bufs[c.callers[p].b].lock
    case Release(p) => p in c.callers && c.callers[p].Holding? && c.callers[p].b < |c.bufs|
        && c.bufs[c.callers[p].b].count > 0
    case Lock(b) => b < |c.bufs| && !c.bufs[b].lock && c.bufs[b].dev != 0
    case Unlock(b, _) => b < |c.bufs| && c.bufs[b].lock
    case Mark(b, _, _) => b < |c.bufs|
  }

  function Goto(c: Cache, p: nat, pc: Pc): Cache { Cache(c.bufs, c.callers[p := pc]) }

  function Put(c: Cache, b: nat, x: Buffer): Cache
    requires b < |c.bufs|
  {
    Cache(c.bufs[b := x], c.callers)
  }

  /** The branch of getblk that a caller takes when its picked buffer is unlocked: start over, sync
      once more, or give the buffer its new identity. */
  datatype Branch = Repeat | Sync | Claim

  function Decide(c: Cache, dev: nat, block: nat, b: nat): Branch
    requires b < |c.bufs|
  {
    if c.bufs[b].count != 0 then Repeat
    else if c.bufs[b].dirt then Sync
    else if Cached(c, dev, block) then Repeat
    else Claim
  }

  function Next(c: Cache, e: Step): Cache
    requires Enabled(c, e)
  {
    match e
    case Call(p, dev, block) => Goto(c, p, Looking(dev, block))
    case Hit(p, b) =>
      Goto(Put(c, b, c.bufs[b].(count := c.bufs[b].count + 1)), p, Pinned(c.callers[p].dev, c.callers[p].block, b))
    case Miss(p, b) => Goto(c, p, Chosen(c.callers[p].dev, c.callers[p].block, b))
    case MissAll(p) => Goto(c, p, NoneFree(c.callers[p].dev, c.callers[p].block))
    case WakeUp(p) => Goto(c, p, Looking(c.callers[p].dev, c.callers[p].block))
    case HitDone(p) =>
      var pc := c.callers[p];
      if Is(c.bufs[pc.b], pc.dev, pc.block) then Goto(c, p, Holding(pc.dev, pc.block, pc.b))
      else Goto(Put(c, pc.b, c.bufs[pc.b].(count := if c.bufs[pc.b].count > 0 then c.bufs[pc.b].count - 1 else 0)),
                p, Looking(pc.dev, pc.block))
    case PickDone(p) =>
      var pc := c.callers[p];
      match Decide(c, pc.dev, pc.block, pc.b) {
        case Repeat => Goto(c, p, Looking(pc.dev, pc.block))
        case Sync => c
        case Claim =>
          Goto(Put(c, pc.b, Buffer(pc.dev, pc.block, 1, false, false, false)), p, Holding(pc.dev, pc.block, pc.b))
      }
    case Release(p) =>
      var b := c.callers[p].b;
      Cache(c.bufs[b := c.bufs[b].(count := c.bufs[b].count - 1)], c.callers - {p})
    case Lock(b) => Put(c, b, c.bufs[b].(lock := true))
    case Unlock(b, uptodate) => Put(c, b, c.bufs[b].(lock := false, uptodate := uptodate))
    case Mark(b, dirt, uptodate) => Put(c, b, c.bufs[b].(dirt := dirt, uptodate := uptodate))
  }

  // ---- The invariant ----

  /** The callers whose count is on b. */
  predicate Pins(pc: Pc, b: nat) { (pc.Pinned? || pc.Holding?) && pc.b == b }

  function PinsOf(c: Cache, b: nat): set<nat> { set p | p in c.callers && Pins(c.callers[p], b) }

  predicate CallerOk(c: Cache, pc: Pc) {
    && pc.dev != 0
    && (pc.Pinned? || pc.Chosen? || pc.Holding? ==> pc.b < |c.bufs|)
    && (pc.Pinned? || pc.Holding? ==> Is(c.bufs[pc.b], pc.dev, pc.block))
  }

  predicate Inv(c: Cache) {
    && OneBufferPerBlock(c.bufs)
    && (forall p | p in c.callers :: CallerOk(c, c.callers[p]))
    && forall b: nat | b < |c.bufs| :: c.bufs[b].count == |PinsOf(c, b)|
  }

  /** A caller moves; the set of pins on b changes accordingly. */
  lemma PinsMoved(c: Cache, d: Cache, p: nat, b: nat)
    requires forall q | q != p ::
               (q in c.callers) == (q in d.callers) && (q in c.callers ==> c.callers[q] == d.callers[q])
    ensures var was, now := p in c.callers && Pins(c.callers[p], b), p in d.callers && Pins(d.callers[p], b);
            |PinsOf(d, b)| == |PinsOf(c, b)| - (if was then 1 else 0) + (if now then 1 else 0)
  {
    var was, now := PinsOf(c, b), PinsOf(d, b);
    forall q ensures q in was <==> q in c.callers && Pins(c.callers[q], b) {}
    forall q ensures q in now <==> q in d.callers && Pins(d.callers[q], b) {}
    OneApart(was, now, p);
  }

  lemma OneApart(was: set<nat>, now: set<nat>, p: nat)
    requires forall q | q != p :: q in was <==> q in now
    ensures |now| == |was| - (if p in was then 1 else 0) + (if p in now then 1 else 0)
  {
    var rest := was - {p};
    assert now - {p} == rest;
    assert was == if p in was then rest + {p} else rest;
    assert now == if p in now then rest + {p} else rest;
  }

  lemma PinsSame(c: Cache, d: Cache, b: nat)
    requires c.callers == d.callers
    ensures PinsOf(c, b) == PinsOf(d, b)
  {}

  /** A buffer that some caller pins has a positive count. */
  lemma PinnedCounted(c: Cache, p: nat)
    requires Inv(c) && p in c.callers && (c.callers[p].Pinned? || c.callers[p].Holding?)
    ensures c.callers[p].b < |c.bufs| && c.bufs[c.callers[p].b].count > 0
  {
    assert p in PinsOf(c, c.callers[p].b);
  }

  /** The retry in get_hash_table is never taken: what was found is still there after the sleep. */
  lemma HitNeverRetried(c: Cache, p: nat)
    requires Inv(c) && Enabled(c, HitDone(p))
    ensures var pc := c.callers[p]; Next(c, HitDone(p)) == Goto(c, p, Holding(pc.dev, pc.block, pc.b))
  {
    assert CallerOk(c, c.callers[p]);
  }

  /** Caller p goes from one place to another, and the count of b follows. */
  lemma CallerMoves(c: Cache, d: Cache, p: nat, b: nat)
    requires b < |c.bufs| == |d.bufs| && c.bufs[b].count == |PinsOf(c, b)|
    requires d.callers - {p} == c.callers - {p}
    requires d.bufs[b].count + (if p in c.callers && Pins(c.callers[p], b) then 1 else 0)
             == c.bufs[b].count + (if p in d.callers && Pins(d.callers[p], b) then 1 else 0)
    ensures d.bufs[b].count == |PinsOf(d, b)|
  {
    forall q | q != p
      ensures (q in c.callers) == (q in d.callers) && (q in c.callers ==> c.callers[q] == d.callers[q])
    {
      assert q in c.callers - {p} <==> q in c.callers;
      assert q in d.callers - {p} <==> q in d.callers;
    }
    PinsMoved(c, d, p, b);
  }

  lemma CallerMoved(c: Cache, p: nat, pc: Pc)
    ensures c.callers[p := pc] - {p} == c.callers - {p}
  {}

  lemma PickCounts(c: Cache, p: nat, b: nat)
    requires Inv(c) && Enabled(c, PickDone(p)) && b < |c.bufs|
    ensures var d := Next(c, PickDone(p)); b < |d.bufs| && d.bufs[b].count == |PinsOf(d, b)|
  {
    var d := Next(c, PickDone(p));
    assert c.bufs[b].count == |PinsOf(c, b)|;
    if p in d.callers { CallerMoved(c, p, d.callers[p]); }
    hide Inv, PinsOf, Cached;
    CallerMoves(c, d, p, b);
  }

  lemma CountAfter(c: Cache, e: Step, b: nat)
    requires Inv(c) && Enabled(c, e) && b < |c.bufs|
    ensures var d := Next(c, e); b < |d.bufs| && d.bufs[b].count == |PinsOf(d, b)|
  {
    var d := Next(c, e);
    assert c.bufs[b].count == |PinsOf(c, b)|;
    match e {
      case HitDone(p) => HitNeverRetried(c, p); CallerMoved(c, p, d.callers[p]); CallerMoves(c, d, p, b);
      case PickDone(p) => PickCounts(c, p, b);
      case Release(p) => CallerMoves(c, d, p, b);
      case Lock(_) => PinsSame(c, d, b);
      case Unlock(_, _) => PinsSame(c, d, b);
      case Mark(_, _, _) => PinsSame(c, d, b);
      case _ =>
        hide Inv, PinsOf, Cached;
        CallerMoved(c, e.p, d.callers[e.p]);
        CallerMoves(c, d, e.p, b);
    }
  }

  lemma StepKeepsCounts(c: Cache, e: Step)
    requires Inv(c) && Enabled(c, e)
    ensures var d := Next(c, e);
            |d.bufs| == |c.bufs| && forall b: nat | b < |d.bufs| :: d.bufs[b].count == |PinsOf(d, b)|
  {
    forall b: nat | b < |c.bufs| ensures b < |Next(c, e).bufs| && Next(c, e).bufs[b].count == |PinsOf(Next(c, e), b)| {
      CountAfter(c, e, b);
    }
  }

  /** A buffer changes its identity in one way only: a caller claims it while it is unused, unlocked
      and clean, for a block that no buffer has. */
  lemma IdentityChange(c: Cache, e: Step, b: nat)
    requires Inv(c) && Enabled(c, e) && b < |c.bufs|
    ensures |Next(c, e).bufs| == |c.bufs|
    ensures var x, y := c.bufs[b], Next(c, e).bufs[b];
            y.dev != x.dev || y.block != x.block ==>
              && e.PickDone? && x.count == 0 && !x.lock && !x.dirt
              && !Cached(c, y.dev, y.block) && y == Buffer(y.dev, y.block, 1, false, false, false)
  {
    if e.HitDone? { HitNeverRetried(c, e.p); }
  }

  /** After the wait getblk begins again if its pick has been taken or the block has come into the cache,
      waits once more if it is dirty, and else holds it: counted once, clean, and with nothing read into it. */
  lemma PickOutcome(c: Cache, p: nat)
    requires Inv(c) && Enabled(c, PickDone(p))
    ensures var was, d := c.callers[p], Next(c, PickDone(p));
            var x, here := c.bufs[was.b], exists a: nat :: a < |c.bufs| && Is(c.bufs[a], was.dev, was.block);
            && p in d.callers && |d.bufs| == |c.bufs|
            && (x.count > 0 || (!x.dirt && here) ==> d.callers[p] == Looking(was.dev, was.block) && d.bufs == c.bufs)
            && (x.count == 0 && x.dirt ==> d == c)
            && (x.count == 0 && !x.dirt && !here ==>
                 var y := d.bufs[was.b];
                 && d.callers[p] == Holding(was.dev, was.block, was.b) && Is(y, was.dev, was.block)
                 && y.count == 1 && !y.dirt && !y.uptodate && !y.lock)
  {
    hide Inv;
  }

  lemma StepKeepsIdentities(c: Cache, e: Step)
    requires Inv(c) && Enabled(c, e)
    ensures OneBufferPerBlock(Next(c, e).bufs)
  {
    var d := Next(c, e);
    forall a: nat, b: nat | a < |d.bufs| && b < |d.bufs| && a != b && d.bufs[a].dev != 0
      ensures !Is(d.bufs[b], d.bufs[a].dev, d.bufs[a].block)
    {
      IdentityChange(c, e, a);
      IdentityChange(c, e, b);
    }
  }

  lemma StepKeepsCallers(c: Cache, e: Step)
    requires Inv(c) && Enabled(c, e)
    ensures var d := Next(c, e); forall p | p in d.callers :: CallerOk(d, d.callers[p])
  {
    var d := Next(c, e);
    forall p | p in d.callers ensures CallerOk(d, d.callers[p]) {
      if p in c.callers && c.callers[p] == d.callers[p] {
        assert CallerOk(c, c.callers[p]);
        if c.callers[p].Pinned? || c.callers[p].Holding? {
          PinnedCounted(c, p);
          IdentityChange(c, e, c.callers[p].b);
        }
      } else if p in c.callers {
        assert CallerOk(c, c.callers[p]);
      }
    }
  }

  lemma StepKeeps(c: Cache, e: Step)
    requires Inv(c) && Enabled(c, e)
    ensures Inv(Next(c, e))
  {
    StepKeepsCounts(c, e);
    StepKeepsIdentities(c, e);
    StepKeepsCallers(c, e);
  }

  // ---- Every run ----

  predicate Run(c: Cache, es: seq<Step>)
    decreases |es|
  {
    es == [] || (Enabled(c, es[0]) && Run(Next(c, es[0]), es[1..]))
  }

  function RunOf(c: Cache, es: seq<Step>): Cache
    requires Run(c, es)
    decreases |es|
  {
    if es == [] then c else RunOf(Next(c, es[0]), es[1..])
  }

  /** An empty cache. */
  function Boot(n: nat): Cache { Cache(seq(n, _ => EMPTY), map[]) }

  lemma BootOk(n: nat)
    ensures Inv(Boot(n))
  {
    forall b: nat | b < n ensures |PinsOf(Boot(n), b)| == 0 { assert PinsOf(Boot(n), b) == {}; }
  }

  lemma {:induction false} RunKeeps(c: Cache, es: seq<Step>)
    requires Inv(c) && Run(c, es)
    ensures Inv(RunOf(c, es))
    decreases |es|
  {
    if es != [] {
      StepKeeps(c, es[0]);
      RunKeeps(Next(c, es[0]), es[1..]);
    }
  }

  /** Coherence: whoever asks for the same block holds the same buffer, in every reachable state. */
  lemma SameBlockSameBuffer(n: nat, es: seq<Step>, p: nat, q: nat)
    requires Run(Boot(n), es)
    requires var c := RunOf(Boot(n), es);
             && p in c.callers && c.callers[p].Holding? && q in c.callers && c.callers[q].Holding?
             && c.callers[p].dev == c.callers[q].dev && c.callers[p].block == c.callers[q].block
    ensures var c := RunOf(Boot(n), es); c.callers[p].b == c.callers[q].b
  {
    BootOk(n);
    RunKeeps(Boot(n), es);
    var c := RunOf(Boot(n), es);
    assert CallerOk(c, c.callers[p]) && CallerOk(c, c.callers[q]);
  }

  /** p neither gives up its buffer in es nor makes another call. */
  predicate Keeps(es: seq<Step>, p: nat) {
    forall i | 0 <= i < |es| :: es[i] != Release(p)
  }

  /** From the return of getblk to the brelse, whatever anybody else does, the buffer stays the
      caller's block. */
  lemma {:induction false} HeldStays(c: Cache, es: seq<Step>, p: nat)
    requires Inv(c) && Run(c, es) && p in c.callers && c.callers[p].Holding? && Keeps(es, p)
    ensures var d := RunOf(c, es);
            && p in d.callers && d.callers[p] == c.callers[p] && c.callers[p].b < |d.bufs|
            && Is(d.bufs[c.callers[p].b], c.callers[p].dev, c.callers[p].block)
            && d.bufs[c.callers[p].b].count > 0
    decreases |es|
  {
    if es == [] {
      PinnedCounted(c, p);
    } else {
      StepKeeps(c, es[0]);
      assert es[0] != Release(p);
      HeldStays(Next(c, es[0]), es[1..], p);
    }
  }

  /** No transfer of b ends in es. */
  predicate InFlight(es: seq<Step>, b: nat) {
    forall i | 0 <= i < |es| :: !(es[i].Unlock? && es[i].b == b)
  }

  /** A buffer keeps its block while the disk works on it, though nobody may be using it. */
  lemma {:induction false} InFlightStays(c: Cache, es: seq<Step>, b: nat)
    requires Inv(c) && Run(c, es) && b < |c.bufs| && c.bufs[b].lock && InFlight(es, b)
    ensures var d := RunOf(c, es); b < |d.bufs| && d.bufs[b].lock && Is(d.bufs[b], c.bufs[b].dev, c.bufs[b].block)
    decreases |es|
  {
    if es != [] {
      assert !(es[0].Unlock? && es[0].b == b);
      IdentityChange(c, es[0], b);
      StepKeeps(c, es[0]);
      InFlightStays(Next(c, es[0]), es[1..], b);
    }
  }
}
