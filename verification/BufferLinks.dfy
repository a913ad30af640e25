/** The two pointer structures of fs/buffer.c, on sequences: the circular free list and the doubly
    linked hash chains.  Buffers are numbered from 1 and 0 is the null pointer; cell 0 of an array is
    the memory a null pointer designates. */
module BufferLinks {
  import opened Counting

  type Cells = seq<nat>

  predicate Within(c: seq<nat>, cells: Cells) { forall i | 0 <= i < |c| :: 0 < c[i] < |cells| }

  function Without(c: seq<nat>, k: nat): seq<nat>
    requires k < |c|
  {
    c[..k] + c[k + 1..]
  }

  lemma WithoutAt(c: seq<nat>, k: nat)
    requires k < |c| && Distinct(c)
    ensures var d := Without(c, k);
            && Distinct(d) && |d| == |c| - 1
            && (forall i | 0 <= i < |d| :: d[i] == c[if i < k then i else i + 1])
            && (forall x :: x in d <==> x in c && x != c[k])
  {
    var d := Without(c, k);
    forall x ensures x in d <==> x in c && x != c[k] {
      if x in c && x != c[k] {
        var i :| 0 <= i < |c| && c[i] == x;
        assert d[if i < k then i else i - 1] == x;
      }
    }
  }

  // ---- The circular free list ----

  function After(i: nat, n: nat): nat { if i + 1 >= n then 0 else i + 1 }

  /** b_next_free and b_prev_free agree between ring[i] and its successor. */
  predicate RingLink(next: Cells, prev: Cells, ring: seq<nat>, i: nat)
    requires i < |ring| && |next| == |prev| && Within(ring, next)
  {
    next[ring[i]] == ring[After(i, |ring|)] && prev[ring[After(i, |ring|)]] == ring[i]
  }

  predicate Ring(next: Cells, prev: Cells, ring: seq<nat>) {
    && |next| == |prev| && Within(ring, next) && Distinct(ring)
    && forall i: nat | i < |ring| :: RingLink(next, prev, ring, i)
  }

  lemma RingRemove(next: Cells, prev: Cells, ring: seq<nat>, k: nat)
    requires Ring(next, prev, ring) && |ring| >= 2 && k < |ring|
    ensures var b := ring[k]; 0 < prev[b] < |next| && 0 < next[b] < |prev|
    ensures var b := ring[k]; Ring(next[prev[b] := next[b]], prev[next[b] := prev[b]], Without(ring, k))
    ensures k == 0 ==> Without(ring, k)[0] == next[ring[k]]
  {
    var n, b := |ring|, ring[k];
    var before := if k == 0 then n - 1 else k - 1;
    assert RingLink(next, prev, ring, before) && RingLink(next, prev, ring, k);
    var p, q := ring[before], ring[After(k, n)];
    assert p == prev[b] && q == next[b];
    WithoutAt(ring, k);
    var r := Without(ring, k);
    var next', prev' := next[p := q], prev[q := p];
    forall i: nat | i < |r| ensures RingLink(next', prev', r, i) {
      var j := if i < k then i else i + 1;
      assert r[i] == ring[j] && RingLink(next, prev, ring, j);
      var m := After(i, |r|);
      var l := if m < k then m else m + 1;
      assert r[m] == ring[l];
      if j != before {
        assert l == After(j, n) && ring[j] != p && ring[l] != q;
      } else {
        assert l == After(k, n);
      }
    }
  }

  lemma RingAppend(next: Cells, prev: Cells, ring: seq<nat>, b: nat)
    requires Ring(next, prev, ring) && ring != [] && 0 < b < |next| && b !in ring
    ensures 0 < prev[ring[0]] < |next|
    ensures var last := prev[ring[0]];
            Ring(next[b := ring[0]][last := b], prev[b := last][ring[0] := b], ring + [b])
  {
    var n := |ring|;
    assert RingLink(next, prev, ring, n - 1);
    var last := ring[n - 1];
    var r := ring + [b];
    var next', prev' := next[b := ring[0]][last := b], prev[b := last][ring[0] := b];
    forall i | 0 <= i < n ensures ring[i] in ring {}
    forall i: nat | i < |r| ensures RingLink(next', prev', r, i) {
      if i < n - 1 {
        assert RingLink(next, prev, ring, i);
        assert ring[i] != last && ring[i + 1] != ring[0];
      }
    }
  }

  // ---- Hash chains ----

  predicate ChainLink(next: Cells, prev: Cells, c: seq<nat>, i: nat)
    requires i < |c| && |next| == |prev| && Within(c, next)
  {
    && next[c[i]] == (if i + 1 < |c| then c[i + 1] else 0)
    && prev[c[i]] == (if i > 0 then c[i - 1] else 0)
  }

  predicate Chain(next: Cells, prev: Cells, head: nat, c: seq<nat>) {
    && |next| == |prev| && Within(c, next) && Distinct(c)
    && head == (if c == [] then 0 else c[0])
    && forall i: nat | i < |c| :: ChainLink(next, prev, c, i)
  }

  /** The first part of remove_from_queues. */
  function Unlink(cells: Cells, at: nat, to: nat): Cells { if 0 < at < |cells| then cells[at := to] else cells }

  lemma ChainRemove(next: Cells, prev: Cells, head: nat, c: seq<nat>, k: nat)
    requires Chain(next, prev, head, c) && k < |c|
    ensures var b := c[k];
            Chain(Unlink(next, prev[b], next[b]), Unlink(prev, next[b], prev[b]),
                  if head == b then next[b] else head, Without(c, k))
  {
    var b := c[k];
    assert ChainLink(next, prev, c, k);
    WithoutAt(c, k);
    var d := Without(c, k);
    var next', prev' := Unlink(next, prev[b], next[b]), Unlink(prev, next[b], prev[b]);
    forall i: nat | i < |d| ensures ChainLink(next', prev', d, i) {
      var j := if i < k then i else i + 1;
      assert d[i] == c[j] && ChainLink(next, prev, c, j);
      if k > 0 && j != k - 1 { assert c[j] != c[k - 1]; }
      if k + 1 < |c| && j != k + 1 { assert c[j] != c[k + 1]; }
    }
  }

  /** insert_into_queues at the head of a chain.  Behind an empty chain the last store goes through a
      null pointer, to cell 0. */
  lemma ChainInsert(next: Cells, prev: Cells, head: nat, c: seq<nat>, b: nat)
    requires Chain(next, prev, head, c) && 0 < b < |next| && b !in c
    ensures head < |next|
    ensures Chain(next[b := head], prev[b := 0][head := b], b, [b] + c)
  {
    var d := [b] + c;
    var next', prev' := next[b := head], prev[b := 0][head := b];
    forall i: nat | i < |d| ensures ChainLink(next', prev', d, i) {
      if i > 0 {
        assert ChainLink(next, prev, c, i - 1) && c[i - 1] in c;
        if i > 1 { assert c[i - 1] != c[0]; }
      }
    }
  }

  /** A chain does not notice changes elsewhere. */
  lemma ChainElsewhere(next: Cells, prev: Cells, next': Cells, prev': Cells, head: nat, c: seq<nat>)
    requires Chain(next, prev, head, c) && |next'| == |prev'| == |next|
    requires forall x | x in c :: next'[x] == next[x] && prev'[x] == prev[x]
    ensures Chain(next', prev', head, c)
  {
    forall i: nat | i < |c| ensures ChainLink(next', prev', c, i) { assert c[i] in c && ChainLink(next, prev, c, i); }
  }
}
