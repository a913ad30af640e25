/** The buffer heads of fs/buffer.c with their hash table and free list, changed in place. */
module BufferIndex {
  import opened BufferLinks
  import opened Buffers
  import opened Counting
  import C = BufferCache

  const NR_HASH := 307
  const BLOCKS := 0x1_0000_0000

  /** _hashfn */
  function HashFn(dev: nat, block: nat): (h: nat)
    requires dev < DEVICES && block < BLOCKS
    ensures h < NR_HASH
  {
    ((dev as bv32) ^ (block as bv32)) as nat % NR_HASH
  }

  predicate IsHead(x: Buffer) { x.dev < DEVICES && x.block < BLOCKS }

  /** The links as a value. */
  datatype Links = Links(next: Cells, prev: Cells, nextFree: Cells, prevFree: Cells, hash: seq<nat>, free: nat,
                         ring: seq<nat>, chains: seq<seq<nat>>)

  function Bucket(x: Buffer): nat
    requires IsHead(x)
  {
    HashFn(x.dev, x.block)
  }

  ghost predicate Hashed(bufs: seq<Buffer>, b: nat, h: nat) {
    0 < b < |bufs| && bufs[b].dev != 0 && IsHead(bufs[b]) && Bucket(bufs[b]) == h
  }

  /** The ring and the chains of the buffers in `members`; `listed` are those in a hash chain. */
  ghost predicate Ok(l: Links, bufs: seq<Buffer>, members: set<nat>) {
    && |l.next| == |l.prev| == |l.nextFree| == |l.prevFree| == |bufs|
    && |l.hash| == |l.chains| == NR_HASH
    && (forall b | 0 <= b < |bufs| :: IsHead(bufs[b]))
    && Ring(l.nextFree, l.prevFree, l.ring) && l.ring != [] && l.free == l.ring[0]
    && (forall b :: b in l.ring <==> b in members)
    && (forall h: nat | h < NR_HASH :: Chain(l.next, l.prev, l.hash[h], l.chains[h]))
    && (forall h: nat, b: nat | h < NR_HASH :: b in l.chains[h] <==> b in members && Hashed(bufs, b, h))
    && (forall b | b in members && bufs[b].dev == 0 :: l.next[b] == 0 && l.prev[b] == 0)
  }

  ghost function All(bufs: seq<Buffer>): set<nat> { set b: nat | 0 < b < |bufs| && IsHead(bufs[b]) }

  function Drop(ring: seq<nat>, b: nat): seq<nat> {
    if ring == [] then [] else if ring[0] == b then ring[1..] else [ring[0]] + Drop(ring[1..], b)
  }

  lemma {:induction false} DropIs(ring: seq<nat>, k: nat)
    requires Distinct(ring) && k < |ring|
    ensures Drop(ring, ring[k]) == Without(ring, k)
  {
    if k > 0 {
      DropIs(ring[1..], k - 1);
      assert ring[1..][k - 1] == ring[k] && ring[0] != ring[k];
      assert Without(ring, k) == [ring[0]] + Without(ring[1..], k - 1);
    }
  }

  // ---- remove_from_queues ----

  function Removed(l: Links, bufs: seq<Buffer>, b: nat): Links
    requires 0 < b < |l.next| == |l.prev| == |l.nextFree| == |l.prevFree| == |bufs|
    requires |l.hash| == |l.chains| == NR_HASH && IsHead(bufs[b]) && l.prevFree[b] < |bufs| && l.nextFree[b] < |bufs|
  {
    var h := Bucket(bufs[b]);
    Links(Unlink(l.next, l.prev[b], l.next[b]), Unlink(l.prev, l.next[b], l.prev[b]),
          l.nextFree[l.prevFree[b] := l.nextFree[b]], l.prevFree[l.nextFree[b] := l.prevFree[b]],
          if l.hash[h] == b then l.hash[h := l.next[b]] else l.hash,
          if l.free == b then l.nextFree[b] else l.free,
          Drop(l.ring, b), l.chains[h := Drop(l.chains[h], b)])
  }

  lemma IndexOf(c: seq<nat>, x: nat) returns (k: nat)
    requires x in c
    ensures k < |c| && c[k] == x
  {
    k :| k < |c| && c[k] == x;
  }

  lemma DropAbsent(c: seq<nat>, x: nat)
    requires x !in c
    ensures Drop(c, x) == c
  {
    if c != [] { DropAbsent(c[1..], x); }
  }

  lemma RingNeighbours(l: Links, bufs: seq<Buffer>, members: set<nat>, b: nat)
    requires Ok(l, bufs, members) && b in members && |l.ring| >= 2
    ensures 0 < b < |bufs| && 0 < l.prevFree[b] < |bufs| && 0 < l.nextFree[b] < |bufs|
  {
    var k := IndexOf(l.ring, b);
    RingRemove(l.nextFree, l.prevFree, l.ring, k);
  }

  lemma RemovedRing(l: Links, bufs: seq<Buffer>, members: set<nat>, b: nat)
    requires Ok(l, bufs, members) && b in members && |l.ring| >= 2
    requires 0 < b < |bufs| && 0 < l.prevFree[b] < |bufs| && 0 < l.nextFree[b] < |bufs|
    ensures var r := Removed(l, bufs, b);
            && Ring(r.nextFree, r.prevFree, r.ring) && |r.ring| == |l.ring| - 1 && r.free == r.ring[0]
            && forall x :: x in r.ring <==> x in members - {b}
  {
    var k := IndexOf(l.ring, b);
    RingRemove(l.nextFree, l.prevFree, l.ring, k);
    DropIs(l.ring, k);
    WithoutAt(l.ring, k);
    if k > 0 { assert l.ring[0] != b; }
  }

  /** Buffers in different chains have no links in common. */
  lemma ChainsApart(l: Links, bufs: seq<Buffer>, members: set<nat>, b: nat, h: nat, g: nat)
    requires Ok(l, bufs, members) && h < NR_HASH && g < NR_HASH && g != h && b in l.chains[h]
    ensures b !in l.chains[g] && l.next[b] !in l.chains[g] && l.prev[b] !in l.chains[g]
  {
    assert Chain(l.next, l.prev, l.hash[h], l.chains[h]) && Chain(l.next, l.prev, l.hash[g], l.chains[g]);
    var k := IndexOf(l.chains[h], b);
    assert ChainLink(l.next, l.prev, l.chains[h], k);
    forall x | x in l.chains[h] ensures x !in l.chains[g] {
      assert Hashed(bufs, x, h);
      assert !Hashed(bufs, x, g);
    }
    assert 0 !in l.chains[g];
  }

  lemma RemovedChain(l: Links, bufs: seq<Buffer>, members: set<nat>, b: nat, g: nat)
    requires Ok(l, bufs, members) && b in members && g < NR_HASH
    requires 0 < b < |bufs| && 0 < l.prevFree[b] < |bufs| && 0 < l.nextFree[b] < |bufs|
    ensures var r := Removed(l, bufs, b);
            && Chain(r.next, r.prev, r.hash[g], r.chains[g])
            && forall x :: x in r.chains[g] <==> x in l.chains[g] && x != b
  {
    var h := Bucket(bufs[b]);
    var r := Removed(l, bufs, b);
    assert Chain(l.next, l.prev, l.hash[g], l.chains[g]);
    if bufs[b].dev == 0 {
      assert b !in l.chains[g] && b !in l.chains[h];
      DropAbsent(l.chains[h], b);
      assert Chain(l.next, l.prev, l.hash[h], l.chains[h]);
      assert l.hash[h] != b;
    } else {
      assert Hashed(bufs, b, h) && b in l.chains[h];
      if g == h {
        var k := IndexOf(l.chains[h], b);
        ChainRemove(l.next, l.prev, l.hash[h], l.chains[h], k);
        DropIs(l.chains[h], k);
        WithoutAt(l.chains[h], k);
      } else {
        ChainsApart(l, bufs, members, b, h, g);
        ChainElsewhere(l.next, l.prev, r.next, r.prev, l.hash[g], l.chains[g]);
      }
    }
  }

  lemma RemovedUnhashed(l: Links, bufs: seq<Buffer>, members: set<nat>, b: nat, x: nat)
    requires Ok(l, bufs, members) && b in members && x in members && x != b && bufs[x].dev == 0
    requires 0 < b < |bufs| && 0 < l.prevFree[b] < |bufs| && 0 < l.nextFree[b] < |bufs|
    ensures var r := Removed(l, bufs, b); x < |bufs| && r.next[x] == 0 && r.prev[x] == 0
  {
    var h := Bucket(bufs[b]);
    if bufs[b].dev != 0 {
      assert Hashed(bufs, b, h) && b in l.chains[h] && x !in l.chains[h];
      var k := IndexOf(l.chains[h], b);
      assert Chain(l.next, l.prev, l.hash[h], l.chains[h]);
      assert ChainLink(l.next, l.prev, l.chains[h], k);
      assert l.next[b] == 0 || l.next[b] in l.chains[h];
      assert l.prev[b] == 0 || l.prev[b] in l.chains[h];
    }
  }

  lemma RemoveKeeps(l: Links, bufs: seq<Buffer>, members: set<nat>, b: nat)
    requires Ok(l, bufs, members) && b in members && |l.ring| >= 2
    ensures 0 < b < |bufs| && l.prevFree[b] < |bufs| && l.nextFree[b] < |bufs|
    ensures Ok(Removed(l, bufs, b), bufs, members - {b})
  {
    RingNeighbours(l, bufs, members, b);
    RemovedRing(l, bufs, members, b);
    var r := Removed(l, bufs, b);
    forall g: nat | g < NR_HASH
      ensures Chain(r.next, r.prev, r.hash[g], r.chains[g])
              && forall x :: x in r.chains[g] <==> x in l.chains[g] && x != b
    {
      RemovedChain(l, bufs, members, b, g);
    }
    forall x | x in members - {b} && bufs[x].dev == 0 ensures r.next[x] == 0 && r.prev[x] == 0 {
      RemovedUnhashed(l, bufs, members, b, x);
    }
  }

  // ---- insert_into_queues ----

  function Inserted(l: Links, bufs: seq<Buffer>, b: nat): Links
    requires 0 < b < |l.next| == |l.prev| == |l.nextFree| == |l.prevFree| == |bufs|
    requires |l.hash| == |l.chains| == NR_HASH && IsHead(bufs[b]) && l.free < |bufs| && l.prevFree[l.free] < |bufs|
    requires forall h | 0 <= h < NR_HASH :: l.hash[h] < |bufs|
  {
    var last := l.prevFree[l.free];
    var nf, pf := l.nextFree[b := l.free][last := b], l.prevFree[b := last][l.free := b];
    if bufs[b].dev == 0 then
      Links(l.next[b := 0], l.prev[b := 0], nf, pf, l.hash, l.free, l.ring + [b], l.chains)
    else
      var h := Bucket(bufs[b]);
      Links(l.next[b := l.hash[h]], l.prev[b := 0][l.hash[h] := b], nf, pf, l.hash[h := b], l.free, l.ring + [b],
            l.chains[h := [b] + l.chains[h]])
  }

  lemma InsertReady(l: Links, bufs: seq<Buffer>, members: set<nat>)
    requires Ok(l, bufs, members)
    ensures l.free < |bufs| && 0 < l.prevFree[l.free] < |bufs| && forall h | 0 <= h < NR_HASH :: l.hash[h] < |bufs|
  {
    assert RingLink(l.nextFree, l.prevFree, l.ring, |l.ring| - 1);
    forall h: nat | h < NR_HASH ensures l.hash[h] < |bufs| { assert Chain(l.next, l.prev, l.hash[h], l.chains[h]); }
  }

  lemma InsertedChain(l: Links, bufs: seq<Buffer>, members: set<nat>, b: nat, g: nat)
    requires Ok(l, bufs, members) && b !in members && 0 < b < |bufs| && g < NR_HASH
    requires l.free < |bufs| && 0 < l.prevFree[l.free] < |bufs| && forall h | 0 <= h < NR_HASH :: l.hash[h] < |bufs|
    ensures var r := Inserted(l, bufs, b);
            && Chain(r.next, r.prev, r.hash[g], r.chains[g])
            && forall x :: x in r.chains[g] <==> x in l.chains[g] || (x == b && Hashed(bufs, b, g))
  {
    var h := Bucket(bufs[b]);
    var r := Inserted(l, bufs, b);
    assert Chain(l.next, l.prev, l.hash[g], l.chains[g]) && Chain(l.next, l.prev, l.hash[h], l.chains[h]);
    assert b !in l.chains[g];
    if bufs[b].dev != 0 && g == h {
      ChainInsert(l.next, l.prev, l.hash[h], l.chains[h], b);
    } else {
      forall x | x in l.chains[g] ensures r.next[x] == l.next[x] && r.prev[x] == l.prev[x] {
        if bufs[b].dev != 0 && l.chains[h] != [] { assert l.hash[h] in l.chains[h] && Hashed(bufs, l.hash[h], h); }
      }
      ChainElsewhere(l.next, l.prev, r.next, r.prev, l.hash[g], l.chains[g]);
    }
  }

  lemma InsertKeeps(l: Links, bufs: seq<Buffer>, members: set<nat>, b: nat)
    requires Ok(l, bufs, members) && b !in members && 0 < b < |bufs|
    ensures l.free < |bufs| && l.prevFree[l.free] < |bufs| && forall h | 0 <= h < NR_HASH :: l.hash[h] < |bufs|
    ensures Ok(Inserted(l, bufs, b), bufs, members + {b})
  {
    InsertReady(l, bufs, members);
    var r := Inserted(l, bufs, b);
    InsertedRing(l, bufs, members, b);
    forall g: nat | g < NR_HASH
      ensures Chain(r.next, r.prev, r.hash[g], r.chains[g])
      ensures forall x: nat :: x in r.chains[g] <==> x in l.chains[g] || (x == b && Hashed(bufs, b, g))
    {
      InsertedChain(l, bufs, members, b, g);
    }
    forall x | x in members + {b} && bufs[x].dev == 0 ensures r.next[x] == 0 && r.prev[x] == 0 {
      InsertedUnhashed(l, bufs, members, b, x);
    }
    hide Ring, Chain, Hashed, Inserted;
  }

  lemma InsertedRing(l: Links, bufs: seq<Buffer>, members: set<nat>, b: nat)
    requires Ok(l, bufs, members) && b !in members && 0 < b < |bufs|
    requires l.free < |bufs| && 0 < l.prevFree[l.free] < |bufs| && forall h | 0 <= h < NR_HASH :: l.hash[h] < |bufs|
    ensures var r := Inserted(l, bufs, b);
            && Ring(r.nextFree, r.prevFree, r.ring) && r.ring == l.ring + [b] && r.free == r.ring[0]
            && |r.next| == |r.prev| == |r.nextFree| == |r.prevFree| == |bufs| && |r.hash| == |r.chains| == NR_HASH
  {
    RingAppend(l.nextFree, l.prevFree, l.ring, b);
  }

  lemma InsertedUnhashed(l: Links, bufs: seq<Buffer>, members: set<nat>, b: nat, x: nat)
    requires Ok(l, bufs, members) && b !in members && 0 < b < |bufs| && x in members + {b} && x < |bufs|
             && bufs[x].dev == 0
    requires l.free < |bufs| && 0 < l.prevFree[l.free] < |bufs| && forall h | 0 <= h < NR_HASH :: l.hash[h] < |bufs|
    ensures var r := Inserted(l, bufs, b); r.next[x] == 0 && r.prev[x] == 0
  {
    if bufs[b].dev != 0 {
      var h := Bucket(bufs[b]);
      assert Chain(l.next, l.prev, l.hash[h], l.chains[h]);
      if l.chains[h] != [] { assert l.hash[h] in l.chains[h] && Hashed(bufs, l.hash[h], h); }
      assert x in l.ring;
    }
  }

  // ---- The code ----

  lemma AllAre(bufs: seq<Buffer>, b: nat)
    requires forall x | 0 <= x < |bufs| :: IsHead(bufs[x])
    ensures b in All(bufs) <==> 0 < b < |bufs|
  {}

  /** A buffer with this identity. */
  predicate Has(bufs: seq<Buffer>, b: nat, dev: nat, block: nat) {
    0 < b < |bufs| && Is(bufs[b], dev, block)
  }

  lemma ChainOfIdentity(l: Links, bufs: seq<Buffer>, dev: nat, block: nat, b: nat)
    requires Ok(l, bufs, All(bufs)) && dev != 0 && dev < DEVICES && block < BLOCKS && Has(bufs, b, dev, block)
    ensures b in l.chains[HashFn(dev, block)]
  {
    AllAre(bufs, b);
    assert Hashed(bufs, b, HashFn(dev, block));
  }

  lemma RingSize(l: Links, bufs: seq<Buffer>)
    requires Ok(l, bufs, All(bufs)) && |bufs| >= 3
    ensures |l.ring| >= 2
  {
    AllAre(bufs, 1);
    AllAre(bufs, 2);
    assert 1 in l.ring && 2 in l.ring;
  }

  lemma LinksInside(l: Links, bufs: seq<Buffer>, members: set<nat>, b: nat)
    requires Ok(l, bufs, members) && b in members && |l.ring| >= 2
    ensures 0 < b < |bufs| && l.next[b] < |bufs| && l.prev[b] < |bufs| && l.next[b] != b && l.prev[b] != b
    ensures l.prevFree[b] != b && l.nextFree[b] != b
  {
    var k := IndexOf(l.ring, b);
    var n := |l.ring|;
    assert RingLink(l.nextFree, l.prevFree, l.ring, k)
           && RingLink(l.nextFree, l.prevFree, l.ring, if k == 0 then n - 1 else k - 1);
    if bufs[b].dev != 0 {
      var h := Bucket(bufs[b]);
      assert Hashed(bufs, b, h) && b in l.chains[h];
      assert Chain(l.next, l.prev, l.hash[h], l.chains[h]);
      var i := IndexOf(l.chains[h], b);
      assert ChainLink(l.next, l.prev, l.chains[h], i);
    }
  }

  lemma BucketHead(l: Links, bufs: seq<Buffer>, members: set<nat>, b: nat)
    requires Ok(l, bufs, members) && b !in members && 0 < b < |bufs|
    ensures IsHead(bufs[b]) && |l.chains| == |l.hash| == NR_HASH
    ensures var h := Bucket(bufs[b]); (l.hash[h] == 0 <==> l.chains[h] == []) && l.hash[h] != b && l.hash[h] < |bufs|
    ensures l.free != b && l.free < |bufs| && l.prevFree[l.free] != b
  {
    var h := Bucket(bufs[b]);
    assert Chain(l.next, l.prev, l.hash[h], l.chains[h]);
    if l.chains[h] != [] { assert l.hash[h] in l.chains[h]; }
    assert RingLink(l.nextFree, l.prevFree, l.ring, |l.ring| - 1);
    assert l.ring[0] in l.ring && l.ring[|l.ring| - 1] in l.ring;
  }

  lemma InitOk(l: Links, bufs: seq<Buffer>, n: nat)
    requires n >= 1 && |bufs| == n + 1 && forall b | 0 <= b <= n :: bufs[b].dev == 0 && IsHead(bufs[b])
    requires |l.next| == |l.prev| == |l.nextFree| == |l.prevFree| == n + 1 && |l.hash| == |l.chains| == NR_HASH
    requires forall b | 0 <= b <= n :: l.next[b] == l.prev[b] == 0
    requires forall h | 0 <= h < NR_HASH :: l.hash[h] == 0 && l.chains[h] == []
    requires l.ring == seq(n, i => i + 1) && l.free == 1
    requires forall b | 1 <= b <= n ::
               l.nextFree[b] == (if b == n then 1 else b + 1) && l.prevFree[b] == (if b == 1 then n else b - 1)
    ensures Ok(l, bufs, All(bufs))
  {
    forall i: nat | i < n ensures RingLink(l.nextFree, l.prevFree, l.ring, i) {}
    forall b ensures b in l.ring <==> b in All(bufs) {
      if 1 <= b <= n { assert l.ring[b - 1] == b; }
    }
    forall h: nat | h < NR_HASH ensures Chain(l.next, l.prev, l.hash[h], l.chains[h]) {}
  }

  class BufferHeads {
    const bufs: array<Buffer>                                  // start_buffer, from index 1
    const next: array<nat>                                   // b_next
    const prev: array<nat>                                   // b_prev
    const nextFree: array<nat>
    const prevFree: array<nat>
    const hashTable: array<nat>
    var freeList: nat
    ghost var ring: seq<nat>
    ghost var chains: seq<seq<nat>>
    ghost var callers: map<nat, C.Pc>                        // where the processes are

    /** The cache that the transition system is about. */
    ghost function View(): C.Cache
      requires bufs.Length > 0
      reads this, bufs
    {
      ViewOf(bufs[..], callers)
    }

    ghost function L(): Links
      reads this, next, prev, nextFree, prevFree, hashTable
    {
      Links(next[..], prev[..], nextFree[..], prevFree[..], hashTable[..], freeList, ring, chains)
    }

    ghost predicate Apart() {
      && next != prev && next != nextFree && next != prevFree && next != hashTable && prev != nextFree
         && prev != prevFree
      && prev != hashTable && nextFree != prevFree && nextFree != hashTable && prevFree != hashTable
    }

    ghost predicate Linked(members: set<nat>)
      reads this, bufs, next, prev, nextFree, prevFree, hashTable
    {
      Apart() && Ok(L(), bufs[..], members)
    }

    ghost predicate Valid()
      reads this, bufs, next, prev, nextFree, prevFree, hashTable
    {
      Linked(All(bufs[..]))
    }

    /** buffer_init for n buffers. */
    constructor BufferInit(n: nat)
      requires n >= 1
      ensures Valid() && bufs.Length == n + 1
      ensures forall b | 1 <= b <= n :: bufs[b] == EMPTY
      ensures ring == seq(n, i => i + 1) && View() == C.Boot(n)
    {
      bufs := new Buffer[n + 1](_ => EMPTY);
      next := new nat[n + 1](_ => 0);
      prev := new nat[n + 1](_ => 0);
      nextFree := new nat[n + 1](_ => 0);
      prevFree := new nat[n + 1](_ => 0);
      hashTable := new nat[NR_HASH](_ => 0);
      freeList := 1;
      ring := seq(n, i => i + 1);
      chains := seq(NR_HASH, _ => []);
      callers := map[];
      new;
      LinkFree(n);
      InitOk(L(), bufs[..], n);
    }

    /** Its loop: every buffer to its neighbours in the free list. */
    method LinkFree(n: nat)
      requires n >= 1 && nextFree.Length == prevFree.Length == n + 1 && nextFree != prevFree
      modifies nextFree, prevFree
      ensures forall b | 1 <= b <= n ::
                nextFree[b] == (if b == n then 1 else b + 1) && prevFree[b] == (if b == 1 then n else b - 1)
    {
      var h := 1;
      while h <= n
        invariant 1 <= h <= n + 1
        invariant forall b | 1 <= b < h :: prevFree[b] == b - 1 && nextFree[b] == b + 1
      {
        prevFree[h] := h - 1;
        nextFree[h] := h + 1;
        h := h + 1;
      }
      prevFree[1] := n;
      nextFree[n] := 1;
    }

    method RemoveFromQueues(b: nat)
      requires Valid() && 0 < b < bufs.Length && bufs.Length >= 3
      modifies `freeList, `ring, `chains, next, prev, nextFree, prevFree, hashTable
      ensures Linked(All(bufs[..]) - {b}) && ring == Drop(old(ring), b) && prev[0] == old(prev[0])
    {
      ghost var l := L();
      AllAre(bufs[..], b);
      RingSize(l, bufs[..]);
      RingNeighbours(l, bufs[..], All(bufs[..]), b);
      RemoveKeeps(l, bufs[..], All(bufs[..]), b);
      LinksInside(l, bufs[..], All(bufs[..]), b);
      hide Ok, All;
      Unhash(b);
      assert prevFree[b] != 0 && nextFree[b] != 0;             // "Free block list corrupted" is not reached
      Unfree(b);
      assert L() == Removed(l, bufs[..], b);
    }

    /** The hash-queue half of remove_from_queues. */
    method Unhash(b: nat)
      requires Apart() && b < bufs.Length && IsHead(bufs[b]) && hashTable.Length == |chains| == NR_HASH
      requires next.Length == prev.Length == bufs.Length && next[b] < bufs.Length && prev[b] < bufs.Length
      requires next[b] != b && prev[b] != b
      modifies `chains, next, prev, hashTable
      ensures next[..] == old(Unlink(next[..], prev[b], next[b])) && prev[..] == old(Unlink(prev[..], next[b], prev[b]))
      ensures var h := Bucket(bufs[b]);
              && hashTable[..] == old(if hashTable[h] == b then hashTable[..][h := next[b]] else hashTable[..])
              && chains == old(chains)[h := Drop(old(chains)[h], b)]
    {
      var h := HashFn(bufs[b].dev, bufs[b].block);
      if next[b] != 0 { prev[next[b]] := prev[b]; }
      if prev[b] != 0 { next[prev[b]] := next[b]; }
      if hashTable[h] == b { hashTable[h] := next[b]; }
      chains := chains[h := Drop(chains[h], b)];
    }

    /** The free-list half. */
    method Unfree(b: nat)
      requires Apart() && nextFree.Length == prevFree.Length && b < nextFree.Length
      requires nextFree[b] < nextFree.Length && prevFree[b] < nextFree.Length && nextFree[b] != b && prevFree[b] != b
      modifies `freeList, `ring, nextFree, prevFree
      ensures nextFree[..] == old(nextFree[..][prevFree[b] := nextFree[b]])
      ensures prevFree[..] == old(prevFree[..][nextFree[b] := prevFree[b]])
      ensures freeList == (if old(freeList) == b then old(nextFree[b]) else old(freeList)) && ring == Drop(old(ring), b)
    {
      nextFree[prevFree[b]] := nextFree[b];
      prevFree[nextFree[b]] := prevFree[b];
      if freeList == b { freeList := nextFree[b]; }
      ring := Drop(ring, b);
    }

    /** The last store, made without looking whether the bucket was empty, then goes through a null
        pointer: it scribbles on cell 0 and leaves every list intact. */
    method InsertIntoQueues(b: nat)
      requires 0 < b < bufs.Length && b !in ring && Linked(All(bufs[..]) - {b})
      modifies `ring, `chains, next, prev, nextFree, prevFree, hashTable
      ensures Valid() && ring == old(ring) + [b]
      ensures bufs[b].dev < DEVICES && bufs[b].block < BLOCKS
      ensures prev[0] == if bufs[b].dev != 0 && old(chains)[HashFn(bufs[b].dev, bufs[b].block)] == [] then b
              else old(prev[0])
    {
      ghost var l := L();
      ghost var others := All(bufs[..]) - {b};
      AllAre(bufs[..], b);
      assert others + {b} == All(bufs[..]);
      InsertKeeps(l, bufs[..], others, b);
      BucketHead(l, bufs[..], others, b);
      hide Ok, All;
      Append(b);
      Hash(b);
      assert L() == Inserted(l, bufs[..], b);
    }

    /** The free-list half of insert_into_queues. */
    method Append(b: nat)
      requires Apart() && nextFree.Length == prevFree.Length && b < nextFree.Length && freeList < nextFree.Length
      requires b != freeList && prevFree[freeList] < nextFree.Length && prevFree[freeList] != b
      modifies `ring, nextFree, prevFree
      ensures nextFree[..] == old(nextFree[..][b := freeList][prevFree[freeList] := b])
      ensures prevFree[..] == old(prevFree[..][b := prevFree[freeList]][freeList := b])
      ensures ring == old(ring) + [b]
    {
      nextFree[b] := freeList;
      prevFree[b] := prevFree[freeList];
      nextFree[prevFree[freeList]] := b;
      prevFree[freeList] := b;
      ring := ring + [b];
    }

    /** The hash-queue half. */
    method Hash(b: nat)
      requires Apart() && b < bufs.Length && IsHead(bufs[b]) && hashTable.Length == |chains| == NR_HASH
      requires next.Length == prev.Length == bufs.Length && hashTable[Bucket(bufs[b])] < bufs.Length
      modifies `chains, next, prev, hashTable
      ensures var h := Bucket(bufs[b]); var was := old(hashTable[h]);
              if bufs[b].dev == 0 then
                && next[..] == old(next[..])[b := 0] && prev[..] == old(prev[..])[b := 0]
                && unchanged(hashTable) && unchanged(`chains)
              else
                && next[..] == old(next[..])[b := was] && prev[..] == old(prev[..])[b := 0][was := b]
                && hashTable[..] == old(hashTable[..])[h := b] && chains == old(chains)[h := [b] + old(chains)[h]]
    {
      prev[b] := 0;
      next[b] := 0;
      if bufs[b].dev == 0 { return; }
      var h := HashFn(bufs[b].dev, bufs[b].block);
      next[b] := hashTable[h];
      hashTable[h] := b;
      prev[next[b]] := b;
      chains := chains[h := [b] + chains[h]];
    }

    method FindBuffer(dev: nat, block: nat) returns (r: nat)
      requires Valid() && dev != 0 && dev < DEVICES && block < BLOCKS
      ensures r != 0 ==> Has(bufs[..], r, dev, block)
      ensures r == 0 ==> forall b: nat :: !Has(bufs[..], b, dev, block)
    {
      var h := HashFn(dev, block);
      ghost var c := chains[h];
      ghost var l := L();
      assert Chain(l.next, l.prev, l.hash[h], c);
      r := hashTable[h];
      ghost var i := 0;
      while r != 0
        invariant i <= |c| && r == (if i < |c| then c[i] else 0)
        invariant forall k | 0 <= k < i :: !Has(bufs[..], c[k], dev, block)
        decreases |c| - i
      {
        if bufs[r].dev == dev && bufs[r].block == block { return; }
        assert ChainLink(l.next, l.prev, c, i);
        r := next[r];
        i := i + 1;
      }
      forall b: nat ensures !Has(bufs[..], b, dev, block) {
        if Has(bufs[..], b, dev, block) {
          ChainOfIdentity(l, bufs[..], dev, block, b);
          var k := IndexOf(c, b);
          assert false;
        }
      }
    }

    /** The scan of getblk over the free list: 0 when every buffer is in use. */
    method PickUnused() returns (r: nat)
      requires Valid()
      ensures FirstBest(bufs[..], ring, |ring|, r)
      ensures r == 0 <==> forall b | 0 < b < bufs.Length :: bufs[b].count != 0
      ensures r != 0 ==> 0 < r < bufs.Length && bufs[r].count == 0
                         && forall b | 0 < b < bufs.Length && bufs[b].count == 0 :: NoWorse(bufs[r], bufs[b])
    {
      ghost var l := L();
      r := 0;
      var tmp := freeList;
      ghost var i := 0;
      while true
        invariant i < |ring| && tmp == ring[i] && FirstBest(bufs[..], ring, i, r)
        decreases |ring| - i
      {
        assert RingLink(l.nextFree, l.prevFree, l.ring, i);
        ghost var was := r;
        if bufs[tmp].count == 0
           && (r == 0 || Badness(bufs[tmp]) < Badness(bufs[r])) {
          r := tmp;
          if Badness(bufs[tmp]) == 0 {
            BestFound(bufs[..], ring, i, was);
            break;
          }
        }
        BestStep(bufs[..], ring, i, was, r);
        tmp := nextFree[tmp];
        i := i + 1;
        assert i < |ring| ==> ring[i] != freeList;
        if tmp == freeList { break; }
      }
      BestOfAll(L(), bufs[..], r);
    }

    /** The end of getblk: an unused, unlocked, clean buffer becomes the buffer of (dev, block), at the
        end of the free list. */
    method Claim(b: nat, dev: nat, block: nat)
      requires Valid() && bufs.Length >= 3 && 0 < b < bufs.Length && dev < DEVICES && block < BLOCKS
      modifies `freeList, `ring, `chains, bufs, next, prev, nextFree, prevFree, hashTable
      ensures Valid() && ring == Drop(old(ring), b) + [b]
      ensures bufs[..] == old(bufs[..])[b := Buffer(dev, block, 1, old(bufs[b].lock), false, false)]
    {
      ghost var members := All(bufs[..]);
      bufs[b] := bufs[b].(count := 1, dirt := false, uptodate := false);
      SameIdentities(L(), old(bufs[..]), bufs[..], members, b);
      RemoveFromQueues(b);
      ghost var was := bufs[..];
      assert b !in ring;
      bufs[b] := bufs[b].(dev := dev, block := block);
      Renamed(L(), was, bufs[..], b);
      InsertIntoQueues(b);
    }

    method SetCount(b: nat, n: nat)
      requires Valid() && 0 < b < bufs.Length
      modifies bufs
      ensures Valid() && View() == C.Put(old(View()), b - 1, old(bufs[b]).(count := n))
    {
      ghost var was := bufs[..];
      SetInView(was, callers, b, bufs[b].(count := n));
      bufs[b] := bufs[b].(count := n);
      SameIdentities(L(), was, bufs[..], All(was), b);
    }

    // Between the sleeps of getblk and brelse: each stretch is one step of the transition system.

    /** From `repeat` to the next sleep: get_hash_table counts the buffer that has the block; without one the
        scan picks an unused buffer, if there is any. */
    method Look(ghost p: nat, dev: nat, block: nat) returns (found: bool, r: nat)
      requires Valid() && 0 < dev < DEVICES && block < BLOCKS && p in callers && callers[p] == C.Looking(dev, block)
      modifies `callers, bufs
      ensures Valid() && (found ==> r != 0)
      ensures var e := if found then C.Hit(p, r - 1) else if r != 0 then C.Miss(p, r - 1) else C.MissAll(p);
              C.Enabled(old(View()), e) && View() == C.Next(old(View()), e)
    {
      r := FindBuffer(dev, block);
      CachedIs(bufs[..], callers, dev, block);
      hide Ok;
      found := r != 0;
      if found {
        SetCount(r, bufs[r].count + 1);
        callers := callers[p := C.Pinned(dev, block, r - 1)];
        return;
      }
      r := Choose(p, dev, block);
    }

    /** The block is not in the cache. */
    method Choose(ghost p: nat, ghost dev: nat, ghost block: nat) returns (r: nat)
      requires Valid() && p in callers && callers[p] == C.Looking(dev, block) && !C.Cached(View(), dev, block)
      modifies `callers
      ensures Valid()
      ensures var e := if r != 0 then C.Miss(p, r - 1) else C.MissAll(p);
              C.Enabled(old(View()), e) && View() == C.Next(old(View()), e)
    {
      r := PickUnused();
      hide Ok, C.Cached;
      if r == 0 {
        forall b | 0 <= b < |View().bufs| ensures View().bufs[b].count != 0 { assert bufs[b + 1].count != 0; }
        callers := callers[p := C.NoneFree(dev, block)];
      } else {
        callers := callers[p := C.Chosen(dev, block, r - 1)];
      }
    }

    /** get_hash_table after wait_on_buffer. */
    method Found(ghost p: nat, b: nat, dev: nat, block: nat) returns (ok: bool)
      requires Valid() && 0 < b < bufs.Length && !bufs[b].lock && p in callers
               && callers[p] == C.Pinned(dev, block, b - 1)
      modifies `callers, bufs
      ensures Valid() && ok == Is(old(bufs[b]), dev, block)
      ensures C.Enabled(old(View()), C.HitDone(p)) && View() == C.Next(old(View()), C.HitDone(p))
    {
      hide Ok;
      ok := bufs[b].dev == dev && bufs[b].block == block;
      if ok {
        callers := callers[p := C.Holding(dev, block, b - 1)];
      } else {
        SetCount(b, if bufs[b].count > 0 then bufs[b].count - 1 else 0);
        callers := callers[p := C.Looking(dev, block)];
      }
    }

    /** getblk after wait_on_buffer: the buffer it picked may have been taken or written to, or the block may
        have come into the cache, while it slept. */
    method Settle(ghost p: nat, b: nat, dev: nat, block: nat) returns (branch: C.Branch)
      requires Valid() && bufs.Length >= 3 && 0 < b < bufs.Length && 0 < dev < DEVICES && block < BLOCKS
      requires !bufs[b].lock && p in callers && callers[p] == C.Chosen(dev, block, b - 1)
      modifies this, bufs, next, prev, nextFree, prevFree, hashTable
      ensures Valid() && branch == C.Decide(old(View()), dev, block, b - 1)
      ensures C.Enabled(old(View()), C.PickDone(p)) && View() == C.Next(old(View()), C.PickDone(p))
      ensures branch.Claim? ==> ring == Drop(old(ring), b) + [b]
    {
      if bufs[b].count != 0 {
        callers := callers[p := C.Looking(dev, block)];
        return C.Repeat;
      }
      if bufs[b].dirt { return C.Sync; }
      var r := FindBuffer(dev, block);
      CachedIs(bufs[..], callers, dev, block);
      if r != 0 {
        callers := callers[p := C.Looking(dev, block)];
        return C.Repeat;
      }
      SetInView(bufs[..], callers, b, Buffer(dev, block, 1, false, false, false));
      hide Ok;
      Claim(b, dev, block);
      callers := callers[p := C.Holding(dev, block, b - 1)];
      branch := C.Claim;
    }

    /** brelse of a buffer in use */
    method Brelse(ghost p: nat, b: nat)
      requires Valid() && 0 < b < bufs.Length && bufs[b].count > 0
      requires p in callers && callers[p].Holding? && callers[p].b == b - 1
      modifies `callers, bufs
      ensures Valid() && C.Enabled(old(View()), C.Release(p)) && View() == C.Next(old(View()), C.Release(p))
    {
      hide Ok;
      SetCount(b, bufs[b].count - 1);
      callers := callers - {p};
    }
  }

  lemma SetInView(bufs: seq<Buffer>, callers: map<nat, C.Pc>, b: nat, x: Buffer)
    requires 0 < b < |bufs|
    ensures ViewOf(bufs[b := x], callers) == C.Put(ViewOf(bufs, callers), b - 1, x)
  {}

  /** Buffer b of the array is number b - 1 of the cache. */
  function ViewOf(bufs: seq<Buffer>, callers: map<nat, C.Pc>): C.Cache
    requires bufs != []
  {
    C.Cache(bufs[1..], callers)
  }

  lemma CachedIs(bufs: seq<Buffer>, callers: map<nat, C.Pc>, dev: nat, block: nat)
    requires bufs != []
    ensures C.Cached(ViewOf(bufs, callers), dev, block) <==> exists b :: Has(bufs, b, dev, block)
  {
    var c := ViewOf(bufs, callers);
    if b :| Has(bufs, b, dev, block) { assert Is(c.bufs[b - 1], dev, block); }
    if i :| 0 <= i < |c.bufs| && Is(c.bufs[i], dev, block) { assert Has(bufs, i + 1, dev, block); }
  }

  predicate Unused(bufs: seq<Buffer>, b: nat) { b < |bufs| && bufs[b].count == 0 }

  function Bad(bufs: seq<Buffer>, b: nat): nat { if b < |bufs| then Badness(bufs[b]) else 0 }

  /** r is the first of the least bad unused buffers among the first n of the ring, 0 if there is none. */
  ghost predicate FirstBest(bufs: seq<Buffer>, ring: seq<nat>, n: nat, r: nat)
    requires n <= |ring|
  {
    if r == 0 then forall i | 0 <= i < n :: !Unused(bufs, ring[i])
    else
      exists k | 0 <= k < n :: ring[k] == r && Unused(bufs, r)
        && forall i | 0 <= i < n && Unused(bufs, ring[i]) ::
           if i < k then Bad(bufs, r) < Bad(bufs, ring[i]) else Bad(bufs, r) <= Bad(bufs, ring[i])
  }

  lemma BestStep(bufs: seq<Buffer>, ring: seq<nat>, i: nat, was: nat, r: nat)
    requires i < |ring| && 0 < ring[i] < |bufs| && FirstBest(bufs, ring, i, was)
    requires r == if Unused(bufs, ring[i]) && (was == 0 || Bad(bufs, ring[i]) < Bad(bufs, was)) then ring[i] else was
    ensures FirstBest(bufs, ring, i + 1, r)
  {}

  /** The ring has all buffers in it. */
  lemma BestOfAll(l: Links, bufs: seq<Buffer>, r: nat)
    requires Ok(l, bufs, All(bufs)) && FirstBest(bufs, l.ring, |l.ring|, r) && bufs != []
    ensures r == 0 <==> forall b | 0 < b < |bufs| :: bufs[b].count != 0
    ensures r != 0 ==> 0 < r < |bufs| && bufs[r].count == 0
                       && forall b | 0 < b < |bufs| && bufs[b].count == 0 :: NoWorse(bufs[r], bufs[b])
  {
    forall b | 0 < b < |bufs|
      ensures r == 0 ==> bufs[b].count != 0
      ensures r != 0 && bufs[b].count == 0 ==> NoWorse(bufs[r], bufs[b])
    {
      AllAre(bufs, b);
      var k := IndexOf(l.ring, b);
      assert b == l.ring[k];
      if r != 0 { BadnessOrders(bufs[r], bufs[b]); }
    }
    if r != 0 { AllAre(bufs, r); }
  }

  /** Nothing behind a buffer of badness 0 is better. */
  lemma BestFound(bufs: seq<Buffer>, ring: seq<nat>, i: nat, was: nat)
    requires i < |ring| && 0 < ring[i] < |bufs| && FirstBest(bufs, ring, i, was)
    requires Unused(bufs, ring[i]) && (was == 0 || Bad(bufs, ring[i]) < Bad(bufs, was)) && Bad(bufs, ring[i]) == 0
    ensures FirstBest(bufs, ring, |ring|, ring[i])
  {}

  /** The lists depend on the identities only. */
  lemma SameIdentities(l: Links, bufs: seq<Buffer>, now: seq<Buffer>, members: set<nat>, b: nat)
    requires Ok(l, bufs, members) && members == All(bufs) && b < |bufs| == |now|
    requires now == bufs[b := bufs[b].(count := now[b].count, dirt := now[b].dirt, uptodate := now[b].uptodate)]
    ensures Ok(l, now, All(now))
  {
    forall x ensures x in All(now) <==> x in members { AllAre(bufs, x); AllAre(now, x); }
    forall h: nat, x: nat ensures Hashed(now, x, h) <==> Hashed(bufs, x, h) {}
  }

  /** A buffer outside the lists may take any identity. */
  lemma Renamed(l: Links, bufs: seq<Buffer>, now: seq<Buffer>, b: nat)
    requires Ok(l, bufs, All(bufs) - {b}) && 0 < b < |bufs| == |now| && IsHead(now[b])
    requires now == bufs[b := now[b]]
    ensures Ok(l, now, All(now) - {b})
  {
    forall x: nat ensures x in All(now) - {b} <==> x in All(bufs) - {b} { AllAre(bufs, x); }
    forall h: nat, x: nat | x != b ensures Hashed(now, x, h) <==> Hashed(bufs, x, h) {}
  }
}
