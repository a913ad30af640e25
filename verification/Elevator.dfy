/** The order of a device's request queue (IN_ORDER in kernel/blk_drv/blk.h, the insertion in
    add_request, the removal in end_request), as sequences of ranks: why a queue is never more than
    two rising sweeps, and why no request waits for ever. */
module Elevator {
  import opened Buffers
  import opened Counting

  const READ := 0
  const WRITE := 1
  const SECTORS := 0x1_0000_0000     // sector is an unsigned long
  const RANKS := 2 * DEVICES * SECTORS

  datatype Key = Key(cmd: nat, dev: nat, sector: nat)

  predicate IsKey(k: Key) { k.cmd <= WRITE && k.dev < DEVICES && k.sector < SECTORS }

  /** IN_ORDER */
  predicate InOrder(a: Key, b: Key) {
    a.cmd < b.cmd || (a.cmd == b.cmd && (a.dev < b.dev || (a.dev == b.dev && a.sector < b.sector)))
  }

  function Rank(k: Key): nat { (k.cmd * DEVICES + k.dev) * SECTORS + k.sector }

  lemma RankOrders(a: Key, b: Key)
    requires IsKey(a) && IsKey(b)
    ensures InOrder(a, b) <==> Rank(a) < Rank(b)
    ensures a == b <==> Rank(a) == Rank(b)
    ensures Rank(a) < RANKS
  {
    var x, y := a.cmd * DEVICES + a.dev, b.cmd * DEVICES + b.dev;
    assert x < y || x == y || y < x;
  }

  // ---- Queues ----

  /** A queue is the ranks of its requests, the current one first. */
  type Queue = seq<nat>

  /** The queue is one rising sweep of n requests and then, if it goes on, a second one: the only
      place where a request is not above its predecessor is n. */
  predicate Sweeps(q: Queue, n: nat) {
    && n <= |q| && (q != [] ==> n > 0)
    && forall i | 0 < i < |q| :: q[i - 1] < q[i] <==> i != n
  }

  ghost predicate TwoSweeps(q: Queue) { exists n :: Sweeps(q, n) }

  lemma {:induction false} RisesBetween(q: Queue, n: nat, i: nat, j: nat)
    requires Sweeps(q, n) && i < j < |q| && (j < n || n <= i)
    ensures q[i] < q[j]
    decreases j - i
  {
    if i + 1 < j { RisesBetween(q, n, i, j - 1); }
    assert q[j - 1] < q[j];
  }

  /** r may stand between a and b. */
  predicate Fits(a: nat, r: nat, b: nat) { (a < r || a >= b) && r < b }

  /** Where add_request puts r: behind the first request that r may follow. */
  function Place(q: Queue, r: nat, i: nat): (p: nat)
    requires i < |q|
    ensures i < p <= |q|
    ensures p < |q| ==> Fits(q[p - 1], r, q[p])
    ensures forall k | i < k < p :: !Fits(q[k - 1], r, q[k])
    decreases |q| - i
  {
    if i + 1 == |q| then |q|
    else if Fits(q[i], r, q[i + 1]) then i + 1
    else Place(q, r, i + 1)
  }

  function Insert(q: Queue, r: nat): Queue {
    if q == [] then [r]
    else
      var p := Place(q, r, 0);
      q[..p] + [r] + q[p..]
  }

  /** The length of the first sweep after r is added. */
  function SweepAfter(q: Queue, n: nat, r: nat): nat
    requires n <= |q|
  {
    if q == [] then 1
    else if Place(q, r, 0) < n || (n == |q| && q[|q| - 1] < r) then n + 1 else n
  }

  lemma {:induction false} BehindSecondSweep(q: Queue, n: nat, r: nat, p: nat)
    requires Sweeps(q, n) && 0 < n < p <= |q| && r !in q
    requires forall k | 0 < k < p :: !Fits(q[k - 1], r, q[k])
    ensures q[p - 1] < r
  {
    assert q[p - 1] in q && !Fits(q[p - 2], r, q[p - 1]);
    if n < p - 1 { BehindSecondSweep(q, n, r, p - 1); }
  }

  /** add_request keeps two sweeps, provided no queued request has the same key, and never displaces
      the request that is being served. */
  lemma InsertKeepsSweeps(q: Queue, n: nat, r: nat)
    requires Sweeps(q, n) && r !in q
    ensures Sweeps(Insert(q, r), SweepAfter(q, n, r))
    ensures q != [] ==> Insert(q, r)[0] == q[0]
  {
    if q != [] {
      var p := Place(q, r, 0);
      var n' := SweepAfter(q, n, r);
      assert q[p - 1] in q;
      if n < p { BehindSecondSweep(q, n, r, p); }
      SplicedSweeps(q, n, r, p, n');
    }
  }

  lemma SplicedSweeps(q: Queue, n: nat, r: nat, p: nat, n': nat)
    requires Sweeps(q, n) && 0 < p <= |q| && q[p - 1] != r && (p < |q| ==> Fits(q[p - 1], r, q[p]))
    requires n < p ==> q[p - 1] < r
    requires n' == if p < n || (n == |q| && q[|q| - 1] < r) then n + 1 else n
    ensures Sweeps(q[..p] + [r] + q[p..], n')
  {
    var q' := q[..p] + [r] + q[p..];
    forall i | 0 < i < |q'| ensures q'[i - 1] < q'[i] <==> i != n' {
      if i < p { assert q'[i - 1] == q[i - 1] && q'[i] == q[i]; }
      else if i > p + 1 { assert q'[i - 1] == q[i - 2] && q'[i] == q[i - 1]; }
    }
  }

  lemma InsertAdds(q: Queue, r: nat)
    requires Distinct(q) && r !in q
    ensures Distinct(Insert(q, r)) && multiset(Insert(q, r)) == multiset(q) + multiset{r}
  {
    if q != [] {
      var p := Place(q, r, 0);
      assert q == q[..p] + q[p..];
      var q' := Insert(q, r);
      forall i, j | 0 <= i < j < |q'| ensures q'[i] != q'[j] {
        if j == p { assert q'[i] in q; }
        else if i == p { assert q'[j] in q; }
        else { assert q'[i] == q[if i < p then i else i - 1] && q'[j] == q[if j < p then j else j - 1]; }
      }
    }
  }

  /** With two requests of equal rank the queue can fall into three sweeps: the buffer cache's rule of
      one buffer per block is what the elevator rests on. */
  lemma EqualKeysBreakSweeps()
    ensures var q := [5, 3, 7]; Sweeps(q, 1) && Insert(q, 3) == [5, 3, 7, 3] && !TwoSweeps(Insert(q, 3))
  {
    var q := [5, 3, 7];
    assert Place(q, 3, 2) == 3 && Place(q, 3, 1) == 3 && Place(q, 3, 0) == 3;
    var q' := [5, 3, 7, 3];
    assert Insert(q, 3) == q';
    forall n ensures !Sweeps(q', n) {
      assert !(q'[0] < q'[1]) && !(q'[2] < q'[3]);
    }
  }

  /** end_request: the next request becomes current, and a new sweep starts where the first one ended. */
  lemma RemoveKeepsSweeps(q: Queue, n: nat)
    requires Sweeps(q, n) && q != []
    ensures Sweeps(q[1..], if n > 1 then n - 1 else |q| - 1)
  {
    var q' := q[1..];
    forall i | 0 < i < |q'| ensures q'[i - 1] == q[i] && q'[i] == q[i + 1] {}
    if n == 1 { forall i | 0 < i < |q'| ensures q'[i - 1] < q'[i] { assert q[i] < q[i + 1]; } }
  }

  // ---- Nobody waits for ever ----

  /** How far x is from being served: the ranks between the current request and x, going up through
      the end of the disk when x belongs to the second sweep. */
  function Wait(q: Queue, n: nat, i: nat): int
    requires i < |q|
  {
    if i < n then q[i] - q[0] else RANKS - q[0] + q[i]
  }

  predicate Ranks(q: Queue) { forall i | 0 <= i < |q| :: q[i] < RANKS }

  /** Whatever is added, x is no further away than before. */
  lemma AddingDoesNotDelay(q: Queue, n: nat, r: nat, i: nat) returns (j: nat)
    requires Sweeps(q, n) && r !in q && i < |q|
    ensures j < |Insert(q, r)| && Insert(q, r)[j] == q[i]
    ensures Wait(Insert(q, r), SweepAfter(q, n, r), j) == Wait(q, n, i)
  {
    var p := Place(q, r, 0);
    j := if i < p then i else i + 1;
  }

  /** Every completion brings x closer, until it is served itself. */
  lemma CompletionAdvances(q: Queue, n: nat, i: nat)
    requires Sweeps(q, n) && Ranks(q) && 0 < i < |q|
    ensures var n' := if n > 1 then n - 1 else |q| - 1;
            0 <= Wait(q[1..], n', i - 1) < Wait(q, n, i)
  {
    var q' := q[1..];
    assert q'[0] == q[1] && q'[i - 1] == q[i];
    if n > 1 {
      assert q[0] < q[1];
      if i < n && i > 1 { RisesBetween(q, n, 1, i); }
    } else if i > 1 {
      RisesBetween(q, n, 1, i);
    }
  }

  datatype Event = Add(r: nat) | Done

  /** What the queue may see: requests for buffers that are not queued yet, and completions. */
  predicate CanHappen(q: Queue, e: Event) {
    match e
    case Add(r) => r !in q && r < RANKS
    case Done => q != []
  }

  function After(q: Queue, e: Event): Queue
    requires CanHappen(q, e)
  {
    match e
    case Add(r) => Insert(q, r)
    case Done => q[1..]
  }

  predicate History(q: Queue, es: seq<Event>)
    decreases |es|
  {
    es == [] || (CanHappen(q, es[0]) && History(After(q, es[0]), es[1..]))
  }

  function AfterAll(q: Queue, es: seq<Event>): Queue
    requires History(q, es)
    decreases |es|
  {
    if es == [] then q else AfterAll(After(q, es[0]), es[1..])
  }

  function Completions(es: seq<Event>): nat {
    if es == [] then 0 else (if es[0] == Done then 1 else 0) + Completions(es[1..])
  }

  lemma EventKeeps(q: Queue, e: Event)
    requires TwoSweeps(q) && Distinct(q) && Ranks(q) && CanHappen(q, e)
    ensures var q' := After(q, e); TwoSweeps(q') && Distinct(q') && Ranks(q')
  {
    match e
    case Add(r) =>
      InsertKeepsTwo(q, r);
      InsertAdds(q, r);
    case Done =>
      RemoveKeepsTwo(q);
  }

  lemma InsertKeepsTwo(q: Queue, r: nat)
    requires TwoSweeps(q) && r !in q
    ensures TwoSweeps(Insert(q, r))
  {
    var n :| Sweeps(q, n);
    InsertKeepsSweeps(q, n, r);
  }

  lemma RemoveKeepsTwo(q: Queue)
    requires TwoSweeps(q) && q != []
    ensures TwoSweeps(q[1..])
  {
    var n :| Sweeps(q, n);
    RemoveKeepsSweeps(q, n);
  }

  /** Over every history the queue is two strictly rising sweeps of distinct requests. */
  lemma {:induction false} HistoryKeeps(q: Queue, es: seq<Event>)
    requires TwoSweeps(q) && Distinct(q) && Ranks(q) && History(q, es)
    ensures var q' := AfterAll(q, es); TwoSweeps(q') && Distinct(q') && Ranks(q')
    decreases |es|
  {
    if es != [] {
      EventKeeps(q, es[0]);
      HistoryKeeps(After(q, es[0]), es[1..]);
    }
  }

  /** No starvation: in every history with as many completions as x is away, x has been the current
      request after some prefix k of it, whatever was added meanwhile. */
  lemma {:induction false} Served(q: Queue, n: nat, i: nat, es: seq<Event>) returns (k: nat)
    requires Sweeps(q, n) && Distinct(q) && Ranks(q) && i < |q| && History(q, es)
    requires Completions(es) >= Wait(q, n, i)
    ensures k <= |es| && History(q, es[..k])
    ensures var q' := AfterAll(q, es[..k]); q' != [] && q'[0] == q[i]
    decreases |es|
  {
    if i == 0 {
      k := 0;
      return;
    }
    WaitPositive(q, n, i);
    var m, j := CloserAfter(q, n, i, es[0]);
    hide Sweeps, Wait, Distinct, Ranks, After;
    k := Served(After(q, es[0]), m, j, es[1..]);
    HistoryExtends(q, es, k);
    k := k + 1;
  }

  /** One event: the waiting request is as far away as before, or one completion closer. */
  lemma CloserAfter(q: Queue, n: nat, i: nat, e: Event) returns (m: nat, j: nat)
    requires Sweeps(q, n) && Distinct(q) && Ranks(q) && 0 < i < |q| && CanHappen(q, e)
    ensures var q' := After(q, e);
            && Sweeps(q', m) && Distinct(q') && Ranks(q') && j < |q'| && q'[j] == q[i]
            && Wait(q', m, j) <= Wait(q, n, i) - (if e == Done then 1 else 0)
  {
    EventKeeps(q, e) by { assert TwoSweeps(q); }
    match e
    case Add(r) =>
      InsertKeepsSweeps(q, n, r);
      m := SweepAfter(q, n, r);
      j := AddingDoesNotDelay(q, n, r, i);
    case Done =>
      RemoveKeepsSweeps(q, n);
      CompletionAdvances(q, n, i);
      m, j := if n > 1 then n - 1 else |q| - 1, i - 1;
  }

  lemma WaitPositive(q: Queue, n: nat, i: nat)
    requires Sweeps(q, n) && Ranks(q) && 0 < i < |q|
    ensures Wait(q, n, i) > 0
  {
    if i < n { RisesBetween(q, n, 0, i); }
  }

  lemma HistoryExtends(q: Queue, es: seq<Event>, k: nat)
    requires es != [] && k <= |es| - 1 && CanHappen(q, es[0]) && History(After(q, es[0]), es[1..][..k])
    ensures History(q, es[..k + 1]) && AfterAll(q, es[..k + 1]) == AfterAll(After(q, es[0]), es[1..][..k])
  {
    assert es[..k + 1][1..] == es[1..][..k] && es[..k + 1][0] == es[0];
  }

  /** The distance is less than twice the number of ranks, so the wait is bounded in advance. */
  lemma WaitBounded(q: Queue, n: nat, i: nat)
    requires Sweeps(q, n) && Ranks(q) && i < |q|
    ensures 0 <= Wait(q, n, i) < 2 * RANKS
  {
    if 0 < i < n { RisesBetween(q, n, 0, i); }
  }
}
