/** malloc and free_s of lib/malloc.c on their own pointers. */
module Allocator {
  import opened Malloc

  /** A bucket descriptor; its address is its number, 0 is NULL. */
  datatype Desc = Desc(page: nat, next: nat, freeptr: nat, refcnt: int, size: nat)

  /** word: the words of memory that are in use as pointers; chain: the heads of the bucket chains. */
  datatype State = State(word: map<nat, nat>, desc: seq<Desc>, chain: seq<nat>, spare: nat)

  function First(x: seq<nat>): nat { if x == [] then 0 else x[0] }

  function FirstId(c: seq<Page>): nat { if c == [] then 0 else c[0].id }

  predicate LinkedAt(word: map<nat, nat>, free: seq<nat>, m: nat)
    requires m < |free|
  {
    free[m] in word && word[free[m]] == First(free[m + 1..])
  }

  ghost predicate Linked(word: map<nat, nat>, free: seq<nat>) { forall m: nat | m < |free| :: LinkedAt(word, free, m) }

  ghost predicate PageRep(s: State, c: seq<Page>, k: nat, i: nat)
    requires k < |c| && i < |SIZES|
  {
    var p := c[k];
    && 0 < p.id < |s.desc| && Linked(s.word, p.free)
    && s.desc[p.id] == Desc(p.at, FirstId(c[k + 1..]), First(p.free), Slots(i) - |p.free|, SIZES[i])
  }

  predicate SpareRep(s: State, x: seq<nat>, k: nat)
    requires k < |x|
  {
    0 < x[k] < |s.desc| && s.desc[x[k]].next == First(x[k + 1..])
  }

  ghost predicate Rep(s: State, h: Heap) {
    && |s.desc| > 0 && |s.chain| == |SIZES| && Ok(h, |s.desc|) && s.spare == First(h.spare)
    && (forall i: nat | i < |SIZES| :: s.chain[i] == FirstId(h.bucket[i]))
    && (forall i: nat, k: nat | IsPage(h, i, k) :: PageRep(s, h.bucket[i], k, i))
    && (forall k: nat | k < |h.spare| :: SpareRep(s, h.spare, k))
  }

  // ---- The pointers of one page, seen from outside ----

  predicate SameWords(s: State, t: State, free: seq<nat>) {
    forall m | 0 <= m < |free| && free[m] in s.word :: free[m] in t.word && t.word[free[m]] == s.word[free[m]]
  }

  lemma PageKept(s: State, t: State, c: seq<Page>, k: nat, b: seq<Page>, l: nat, i: nat)
    requires k < |c| && l < |b| && i < |SIZES| && PageRep(s, c, k, i) && b[l] == c[k]
             && FirstId(b[l + 1..]) == FirstId(c[k + 1..])
    requires |s.desc| <= |t.desc| && t.desc[c[k].id] == s.desc[c[k].id] && SameWords(s, t, c[k].free)
    ensures PageRep(t, b, l, i)
  {
    var free := c[k].free;
    forall m: nat | m < |free| ensures LinkedAt(t.word, free, m) { assert LinkedAt(s.word, free, m); }
  }

  /** No free slot of another page is inside this page. */
  lemma OtherPage(h: Heap, descs: nat, i: nat, k: nat, j: nat, l: nat, a: nat)
    requires Ok(h, descs) && IsPage(h, i, k) && IsPage(h, j, l) && (i != j || k != l)
    requires PageAt(h, i, k).at <= a < PageAt(h, i, k).at + PAGE_SIZE
    ensures a !in PageAt(h, j, l).free
  {
    var p, q := PageAt(h, i, k), PageAt(h, j, l);
    assert PagesApart(h);
    assert PageOk(p, i) && PageOk(q, j) && p.at != q.at;
    NotInside(q, j, p.at, a);
  }

  lemma NotInside(q: Page, j: nat, at: nat, a: nat)
    requires j < |SIZES| && PageOk(q, j) && q.at != at && at % PAGE_SIZE == 0 && at <= a < at + PAGE_SIZE
    ensures a !in q.free
  {
    PagesAligned(at, q.at);
    forall m | 0 <= m < |q.free| ensures q.free[m] != a { assert IsSlot(q.at, j, q.free[m]); }
  }

  lemma IdsDiffer(h: Heap, descs: nat, x: Spot, y: Spot)
    requires Ok(h, descs) && IsSpot(h, x) && IsSpot(h, y) && x != y
    ensures IdAt(h, x) != IdAt(h, y)
  {}

  // ---- Taking a slot from a page ----

  function TookState(s: State, d: nat): State
    requires d < |s.desc| && s.desc[d].freeptr in s.word
  {
    s.(desc := s.desc[d := s.desc[d].(freeptr := s.word[s.desc[d].freeptr], refcnt := s.desc[d].refcnt + 1)])
  }

  function TookHeap(h: Heap, i: nat, k: nat): Heap
    requires IsPage(h, i, k) && PageAt(h, i, k).free != []
  {
    SetFree(h, i, k, PageAt(h, i, k).free[1..])
  }

  lemma NextIds(h: Heap, i: nat, k: nat, free: seq<nat>, j: nat, l: nat)
    requires IsPage(h, i, k) && IsPage(h, j, l)
    ensures var g := SetFree(h, i, k, free);
            FirstId(g.bucket[j][l + 1..]) == FirstId(h.bucket[j][l + 1..])
            && FirstId(g.bucket[j]) == FirstId(h.bucket[j])
  {
    var g := SetFree(h, i, k, free);
    if IsPage(h, j, l + 1) { assert PageAt(g, j, l + 1).id == PageAt(h, j, l + 1).id; }
    assert PageAt(g, j, 0).id == PageAt(h, j, 0).id;
  }

  /** A change of one page's free chain, when nobody else's pointers change. */
  lemma SetFreeRep(s: State, t: State, h: Heap, i: nat, k: nat, free: seq<nat>)
    requires Rep(s, h) && IsPage(h, i, k) && PageOk(Page(PageAt(h, i, k).id, PageAt(h, i, k).at, free), i)
    requires t.chain == s.chain && t.spare == s.spare && |t.desc| == |s.desc|
    requires forall d: nat | d < |s.desc| && d != PageAt(h, i, k).id :: t.desc[d] == s.desc[d]
    requires forall j: nat, l: nat | IsPage(h, j, l) && (j != i || l != k) :: SameWords(s, t, PageAt(h, j, l).free)
    requires Linked(t.word, free)
    requires var d := PageAt(h, i, k).id;
             d < |s.desc| && t.desc[d] == s.desc[d].(freeptr := First(free), refcnt := Slots(i) - |free|)
    ensures Rep(t, SetFree(h, i, k, free))
  {
    var g := SetFree(h, i, k, free);
    SetFreeOk(h, |s.desc|, i, k, free);
    forall j: nat, l: nat | IsPage(g, j, l) ensures PageRep(t, g.bucket[j], l, j) {
      NextIds(h, i, k, free, j, l);
      assert PageRep(s, h.bucket[j], l, j) && IsPage(h, j, l);
      if j != i || l != k {
        IdsDiffer(h, |s.desc|, OfPage(j, l), OfPage(i, k));
        assert PageAt(g, j, l) == PageAt(h, j, l);
        PageKept(s, t, h.bucket[j], l, g.bucket[j], l, j);
      } else {
        assert PageAt(g, i, k).free == free;
      }
    }
    forall l: nat | l < |g.spare| ensures SpareRep(t, g.spare, l) {
      assert SpareRep(s, h.spare, l);
      IdsDiffer(h, |s.desc|, Spare(l), OfPage(i, k));
    }
    forall j: nat | j < |SIZES| ensures t.chain[j] == FirstId(g.bucket[j]) {
      if IsPage(h, j, 0) { NextIds(h, i, k, free, j, 0); } else { assert !IsPage(g, j, 0); }
    }
  }

  lemma TookRep(s: State, h: Heap, i: nat, k: nat)
    requires Rep(s, h) && IsPage(h, i, k) && PageAt(h, i, k).free != []
    ensures var d, a := PageAt(h, i, k).id, PageAt(h, i, k).free[0];
            d < |s.desc| && s.desc[d].freeptr == a && a in s.word && Rep(TookState(s, d), TookHeap(h, i, k))
  {
    var p := PageAt(h, i, k);
    assert PageRep(s, h.bucket[i], k, i) && PageOk(p, i) && LinkedAt(s.word, p.free, 0);
    var free := p.free[1..];
    var t := TookState(s, p.id);
    forall m: nat | m < |free| ensures LinkedAt(t.word, free, m) {
      assert LinkedAt(s.word, p.free, m + 1) && free[m + 1..] == p.free[m + 2..];
    }
    assert PageOk(Page(p.id, p.at, free), i);
    SetFreeRep(s, t, h, i, k, free);
  }

  // ---- Giving a slot back ----

  function GaveState(s: State, d: nat, obj: nat): State
    requires d < |s.desc|
  {
    s.(word := s.word[obj := s.desc[d].freeptr],
       desc := s.desc[d := s.desc[d].(freeptr := obj, refcnt := s.desc[d].refcnt - 1)])
  }

  function GaveHeap(h: Heap, i: nat, k: nat, obj: nat): Heap
    requires IsPage(h, i, k)
  {
    SetFree(h, i, k, [obj] + PageAt(h, i, k).free)
  }

  lemma GaveRep(s: State, h: Heap, i: nat, k: nat, obj: nat)
    requires Rep(s, h) && IsPage(h, i, k) && IsSlot(PageAt(h, i, k).at, i, obj) && obj !in PageAt(h, i, k).free
    ensures var d := PageAt(h, i, k).id; d < |s.desc| && Rep(GaveState(s, d, obj), GaveHeap(h, i, k, obj))
  {
    var p := PageAt(h, i, k);
    assert PageRep(s, h.bucket[i], k, i) && PageOk(p, i);
    var free := [obj] + p.free;
    var t := GaveState(s, p.id, obj);
    forall m: nat | m < |free| ensures LinkedAt(t.word, free, m) {
      if m > 0 {
        assert LinkedAt(s.word, p.free, m - 1) && free[m + 1..] == p.free[m..];
      } else {
        assert free[1..] == p.free;
      }
    }
    forall j: nat, l: nat | IsPage(h, j, l) && (j != i || l != k) ensures SameWords(s, t, PageAt(h, j, l).free) {
      OtherPage(h, |s.desc|, i, k, j, l, obj);
    }
    assert PageOk(Page(p.id, p.at, free), i);
    SetFreeRep(s, t, h, i, k, free);
  }

  // ---- A new page ----

  function OpenedState(s: State, i: nat, at: nat, word: map<nat, nat>): State
    requires i < |s.chain| && i < |SIZES| && s.spare < |s.desc|
  {
    var d := s.spare;
    State(word, s.desc[d := Desc(at, s.chain[i], at, 0, SIZES[i])], s.chain[i := d], s.desc[d].next)
  }

  lemma OpenedRep(s: State, h: Heap, i: nat, at: nat, word: map<nat, nat>)
    requires Rep(s, h) && i < |SIZES| && h.spare != [] && at > 0 && at % PAGE_SIZE == 0
    requires forall j: nat, l: nat | IsPage(h, j, l) :: PageAt(h, j, l).at != at
    requires Linked(word, AllSlots(at, i)) && forall a | a in s.word && !(at <= a < at + PAGE_SIZE) ::
             a in word && word[a] == s.word[a]
    ensures s.spare < |s.desc| && Rep(OpenedState(s, i, at, word), Opened(h, i, at))
  {
    assert SpareRep(s, h.spare, 0);
    var g, t := Opened(h, i, at), OpenedState(s, i, at, word);
    OpenedOk(h, |s.desc|, i, at);
    forall j: nat, l: nat | IsPage(g, j, l) ensures PageRep(t, g.bucket[j], l, j) {
      OpenedPage(s, h, i, at, word, j, l);
    }
    forall l: nat | l < |g.spare| ensures SpareRep(t, g.spare, l) {
      assert SpareRep(s, h.spare, l + 1) && g.spare[l + 1..] == h.spare[l + 2..];
      IdsDiffer(h, |s.desc|, Spare(l + 1), Spare(0));
    }
    assert First(g.spare) == First(h.spare[1..]);
  }

  lemma OpenedPage(s: State, h: Heap, i: nat, at: nat, word: map<nat, nat>, j: nat, l: nat)
    requires Rep(s, h) && i < |SIZES| && h.spare != [] && at > 0 && at % PAGE_SIZE == 0
    requires forall j: nat, l: nat | IsPage(h, j, l) :: PageAt(h, j, l).at != at
    requires Linked(word, AllSlots(at, i)) && forall a | a in s.word && !(at <= a < at + PAGE_SIZE) ::
             a in word && word[a] == s.word[a]
    requires IsPage(Opened(h, i, at), j, l)
    ensures s.spare < |s.desc| && PageRep(OpenedState(s, i, at, word), Opened(h, i, at).bucket[j], l, j)
  {
    assert SpareRep(s, h.spare, 0);
    var g, t := Opened(h, i, at), OpenedState(s, i, at, word);
    if j != i || l > 0 {
      var m := if j == i then l - 1 else l;
      assert IsPage(h, j, m) && PageAt(g, j, l) == PageAt(h, j, m) && PageRep(s, h.bucket[j], m, j);
      IdsDiffer(h, |s.desc|, OfPage(j, m), Spare(0));
      assert g.bucket[j][l + 1..] == h.bucket[j][m + 1..];
      WordsOutside(s, t, h, j, m, at);
      hide Rep, Ok, PageRep;
      PageKept(s, t, h.bucket[j], m, g.bucket[j], l, j);
    } else {
      assert g.bucket[i][1..] == h.bucket[i];
      assert AllSlots(at, i)[0] == at;
    }
  }

  lemma WordsOutside(s: State, t: State, h: Heap, j: nat, m: nat, at: nat)
    requires Ok(h, |s.desc|) && IsPage(h, j, m) && PageAt(h, j, m).at != at && at % PAGE_SIZE == 0
    requires forall a | a in s.word && !(at <= a < at + PAGE_SIZE) :: a in t.word && t.word[a] == s.word[a]
    ensures SameWords(s, t, PageAt(h, j, m).free)
  {
    var p := PageAt(h, j, m);
    assert PageOk(p, j);
    forall n | 0 <= n < |p.free| ensures !(at <= p.free[n] < at + PAGE_SIZE) {
      if at <= p.free[n] < at + PAGE_SIZE { NotInside(p, j, at, p.free[n]); }
    }
  }

  // ---- A page given back ----

  function ClosedState(s: State, i: nat, prev: nat, d: nat): State
    requires i < |s.chain| && prev < |s.desc| && d < |s.desc|
  {
    var next := s.desc[d].next;
    var chain := if prev == 0 then s.chain[i := next] else s.chain;
    var desc := if prev == 0 then s.desc else s.desc[prev := s.desc[prev].(next := next)];
    State(s.word, desc[d := desc[d].(next := s.spare)], chain, d)
  }

  function PrevId(c: seq<Page>, k: nat): nat
    requires k <= |c|
  {
    if k == 0 then 0 else c[k - 1].id
  }

  lemma ClosedRep(s: State, h: Heap, i: nat, k: nat)
    requires Rep(s, h) && IsPage(h, i, k)
    ensures var d, prev := PageAt(h, i, k).id, PrevId(h.bucket[i], k);
            d < |s.desc| && prev < |s.desc| && Rep(ClosedState(s, i, prev, d), Closed(h, i, k))
  {
    var c, d, prev := h.bucket[i], PageAt(h, i, k).id, PrevId(h.bucket[i], k);
    assert PageRep(s, c, k, i);
    if k > 0 {
      assert IsPage(h, i, k - 1) && PageRep(s, c, k - 1, i) && c[k..][0] == c[k];
      IdsDiffer(h, |s.desc|, OfPage(i, k - 1), OfPage(i, k));
    }
    var g, t := Closed(h, i, k), ClosedState(s, i, prev, d);
    ClosedOk(h, |s.desc|, i, k);
    forall j: nat, l: nat | IsPage(g, j, l) ensures PageRep(t, g.bucket[j], l, j) { ClosedPage(s, h, i, k, j, l); }
    forall l: nat | l < |g.spare| ensures SpareRep(t, g.spare, l) {
      if l > 0 {
        assert SpareRep(s, h.spare, l - 1) && g.spare[l + 1..] == h.spare[l..];
        IdsDiffer(h, |s.desc|, Spare(l - 1), OfPage(i, k));
        if k > 0 { IdsDiffer(h, |s.desc|, Spare(l - 1), OfPage(i, k - 1)); }
      } else {
        assert g.spare[1..] == h.spare;
      }
    }
    forall j: nat | j < |SIZES| ensures t.chain[j] == FirstId(g.bucket[j]) { ClosedChain(s, h, i, k, j); }
  }

  lemma ClosedChain(s: State, h: Heap, i: nat, k: nat, j: nat)
    requires Rep(s, h) && IsPage(h, i, k) && j < |SIZES|
    ensures var d, prev := PageAt(h, i, k).id, PrevId(h.bucket[i], k);
            d < |s.desc| && prev < |s.desc| && ClosedState(s, i, prev, d).chain[j] == FirstId(Closed(h, i, k).bucket[j])
  {
    var c, g := h.bucket[i], Closed(h, i, k);
    assert PageRep(s, c, k, i);
    if k > 0 {
      assert IsPage(h, i, k - 1) && PageRep(s, c, k - 1, i);
      assert PageAt(g, i, 0) == PageAt(h, i, 0);
    } else {
      assert g.bucket[i] == c[1..];
    }
  }

  lemma ClosedPage(s: State, h: Heap, i: nat, k: nat, j: nat, l: nat)
    requires Rep(s, h) && IsPage(h, i, k) && IsPage(Closed(h, i, k), j, l)
    ensures var d, prev, g := PageAt(h, i, k).id, PrevId(h.bucket[i], k), Closed(h, i, k);
            d < |s.desc| && prev < |s.desc| && PageRep(ClosedState(s, i, prev, d), g.bucket[j], l, j)
  {
    var c, d, prev, g := h.bucket[i], PageAt(h, i, k).id, PrevId(h.bucket[i], k), Closed(h, i, k);
    assert PageRep(s, c, k, i);
    assert k > 0 ==> IsPage(h, i, k - 1) && PageRep(s, c, k - 1, i);
    var t := ClosedState(s, i, prev, d);
    var m := if j == i && l >= k then l + 1 else l;
    assert IsPage(h, j, m) && PageAt(g, j, l) == PageAt(h, j, m) && PageRep(s, h.bucket[j], m, j);
    IdsDiffer(h, |s.desc|, OfPage(j, m), OfPage(i, k));
    if k > 0 && OfPage(j, m) != OfPage(i, k - 1) { IdsDiffer(h, |s.desc|, OfPage(j, m), OfPage(i, k - 1)); }
    if j == i && k > 0 && l == k - 1 {
      assert c[l + 1..][0] == c[k] && g.bucket[i][k..] == c[k + 1..];
      assert Linked(t.word, PageAt(h, j, m).free);
    } else {
      ClosedNext(h, i, k, j, l, m);
      hide Rep, Ok, PageRep, Closed;
      PageKept(s, t, h.bucket[j], m, g.bucket[j], l, j);
    }
  }

  lemma ClosedNext(h: Heap, i: nat, k: nat, j: nat, l: nat, m: nat)
    requires IsPage(h, i, k) && IsPage(Closed(h, i, k), j, l) && m == (if j == i && l >= k then l + 1 else l)
             && !(j == i && l + 1 == k)
    ensures IsPage(h, j, m) && FirstId(Closed(h, i, k).bucket[j][l + 1..]) == FirstId(h.bucket[j][m + 1..])
  {
    var c, g := h.bucket[i], Closed(h, i, k);
    if j == i {
      if l >= k { assert g.bucket[i][l + 1..] == c[m + 1..]; } else { assert g.bucket[i][l + 1] == c[l + 1]; }
    } else {
      assert g.bucket[j] == h.bucket[j];
    }
  }

  // ---- A page of descriptors ----

  function RefilledState(s: State): State {
    var n := |s.desc|;
    s.(desc := s.desc + seq(DESCS_PER_PAGE, j requires 0 <= j => FreshDesc(s, j)), spare := n)
  }

  function FreshDesc(s: State, j: nat): Desc {
    Desc(0, if j + 1 < DESCS_PER_PAGE then |s.desc| + j + 1 else s.spare, 0, 0, 0)
  }

  lemma RefilledRep(s: State, h: Heap)
    requires Rep(s, h) && h.spare == []
    ensures Rep(RefilledState(s), Refilled(h, |s.desc|))
  {
    var n, g, t := |s.desc|, Refilled(h, |s.desc|), RefilledState(s);
    RefilledOk(h, n);
    forall j: nat, l: nat | IsPage(g, j, l) ensures PageRep(t, g.bucket[j], l, j) {
      assert IsPage(h, j, l) && PageRep(s, h.bucket[j], l, j);
      PageKept(s, t, h.bucket[j], l, g.bucket[j], l, j);
    }
    forall l: nat | l < |g.spare| ensures SpareRep(t, g.spare, l) {}
  }

  // ---- The owner of an object writes into it ----

  /** Whatever the owner of a live object writes into it, the allocator's pointers are not touched. */
  lemma ScribbleRep(s: State, h: Heap, a: nat, i: nat, x: nat, v: nat)
    requires Rep(s, h) && i < |SIZES| && Live(h, a, i) && a <= x < a + SIZES[i]
    ensures Rep(s.(word := s.word[x := v]), h)
  {
    var t := s.(word := s.word[x := v]);
    var k: nat :| IsPage(h, i, k) && IsSlot(PageAt(h, i, k).at, i, a) && a !in PageAt(h, i, k).free;
    var p := PageAt(h, i, k);
    SlotEnds(p.at, i, a);
    forall j: nat, l: nat | IsPage(h, j, l) ensures PageRep(t, h.bucket[j], l, j) {
      assert PageRep(s, h.bucket[j], l, j) && PageOk(PageAt(h, j, l), j);
      if i != j || k != l { OtherPage(h, |s.desc|, i, k, j, l, x); } else { NotInSlot(p, i, a, x); }
      PageKept(s, t, h.bucket[j], l, h.bucket[j], l, j);
    }
    forall l: nat | l < |h.spare| ensures SpareRep(t, h.spare, l) { assert SpareRep(s, h.spare, l); }
  }

  lemma NotInSlot(p: Page, i: nat, a: nat, x: nat)
    requires i < |SIZES| && PageOk(p, i) && IsSlot(p.at, i, a) && a !in p.free && a <= x < a + SIZES[i]
    ensures x !in p.free
  {
    forall m | 0 <= m < |p.free| ensures p.free[m] != x {
      if p.free[m] < a { SlotsApart(p.at, i, p.free[m], a); } else { SlotsApart(p.at, i, a, p.free[m]); }
    }
  }

  // ---- malloc and free_s ----

  /** Object `a` of class i is new; everything else that was live still is. */
  ghost predicate Allocated(h: Heap, g: Heap, a: nat, i: nat) {
    (forall j: nat :: !Live(h, a, j)) && forall b: nat, j: nat :: Live(g, b, j) <==> Live(h, b, j) || (b == a && j == i)
  }

  ghost predicate Freed(h: Heap, g: Heap, a: nat) {
    forall b: nat, j: nat :: Live(g, b, j) <==> Live(h, b, j) && b != a
  }

  /** No word inside a live object has changed. */
  ghost predicate ObjectsKept(h: Heap, w: map<nat, nat>, v: map<nat, nat>, but: nat) {
    forall b: nat, j: nat, x: nat | Live(h, b, j) && b != but && Inside(b, j, x) && x in w :: x in v && v[x] == w[x]
  }

  predicate Inside(a: nat, i: nat, x: nat) { i < |SIZES| && a <= x < a + SIZES[i] }

  /** What get_free_page hands out: nothing, or a page that is not in use. */
  ghost predicate NewPage(h: Heap, at: nat) {
    at % PAGE_SIZE == 0 && forall i: nat, k: nat | IsPage(h, i, k) :: PageAt(h, i, k).at != at
  }

  lemma TookLive(h: Heap, descs: nat, i: nat, k: nat)
    requires Ok(h, descs) && IsPage(h, i, k) && PageAt(h, i, k).free != []
    ensures Allocated(h, TookHeap(h, i, k), PageAt(h, i, k).free[0], i)
  {
    var p := PageAt(h, i, k);
    var a, free := p.free[0], p.free[1..];
    assert PageOk(p, i) && p.free == [a] + free && a !in free;
    assert PageOk(Page(p.id, p.at, free), i);
    forall j: nat ensures !Live(h, a, j) { LiveIff(h, descs, i, k, a, j); }
    forall b: nat, j: nat ensures Live(TookHeap(h, i, k), b, j) <==> Live(h, b, j) || (b == a && j == i) {
      SetFreeLive(h, descs, i, k, free, a, b, j);
    }
  }

  lemma TookNoneEmpty(h: Heap, descs: nat, i: nat, k: nat)
    requires Ok(h, descs) && IsPage(h, i, k) && PageAt(h, i, k).free != []
    requires forall j: nat, l: nat | IsPage(h, j, l) && (j != i || l != k) :: |PageAt(h, j, l).free| < Slots(j)
    ensures NoneEmpty(TookHeap(h, i, k))
  {
    assert PageOk(PageAt(h, i, k), i);
    LiveCount(PageAt(h, i, k), i);
    var g := TookHeap(h, i, k);
    forall j: nat, l: nat | IsPage(g, j, l) ensures |PageAt(g, j, l).free| < Slots(j) { assert IsPage(h, j, l); }
  }

  lemma OpenedObjects(h: Heap, descs: nat, i: nat, at: nat, w: map<nat, nat>, v: map<nat, nat>, but: nat)
    requires Ok(h, descs) && NewPage(h, at) && forall a | a in w && !(at <= a < at + PAGE_SIZE) ::
             a in v && v[a] == w[a]
    ensures ObjectsKept(h, w, v, but)
  {
    forall b: nat, j: nat, x: nat | Live(h, b, j) && Inside(b, j, x) ensures !(at <= x < at + PAGE_SIZE) {
      var k: nat :| IsPage(h, j, k) && IsSlot(PageAt(h, j, k).at, j, b) && b !in PageAt(h, j, k).free;
      var p := PageAt(h, j, k);
      assert PageOk(p, j) && p.at != at;
      SlotEnds(p.at, j, b);
      PagesAligned(p.at, at);
    }
  }

  /** The heap after a free_s of slot obj: the page goes back when it was the last live one. */
  function AfterFree(h: Heap, i: nat, k: nat, obj: nat): Heap
    requires IsPage(h, i, k)
  {
    var g := GaveHeap(h, i, k, obj);
    if |PageAt(h, i, k).free| + 1 == Slots(i) then Closed(g, i, k) else g
  }

  lemma AfterFreeLive(h: Heap, descs: nat, i: nat, k: nat, obj: nat)
    requires Ok(h, descs) && NoneEmpty(h) && IsPage(h, i, k) && IsSlot(PageAt(h, i, k).at, i, obj)
             && obj !in PageAt(h, i, k).free
    ensures Freed(h, AfterFree(h, i, k, obj), obj) && NoneEmpty(AfterFree(h, i, k, obj))
  {
    var p, g := PageAt(h, i, k), GaveHeap(h, i, k, obj);
    var free := [obj] + p.free;
    assert PageOk(p, i);
    assert PageOk(Page(p.id, p.at, free), i);
    LiveCount(Page(p.id, p.at, free), i);
    SetFreeOk(h, descs, i, k, free);
    hide Ok, PageOk, IsSlot, SetFree;
    forall b: nat, j: nat ensures Live(AfterFree(h, i, k, obj), b, j) <==> Live(h, b, j) && b != obj {
      SetFreeLive(h, descs, i, k, free, obj, b, j);
      if |free| == Slots(i) { ClosedLive(g, descs, i, k, b, j); }
    }
    forall j: nat, l: nat | IsPage(AfterFree(h, i, k, obj), j, l)
      ensures |PageAt(AfterFree(h, i, k, obj), j, l).free| < Slots(j)
    {
      var m := if |free| == Slots(i) && j == i && l >= k then l + 1 else l;
      assert IsPage(h, j, m) && PageAt(AfterFree(h, i, k, obj), j, l) == PageAt(g, j, m);
    }
  }

  lemma GaveObjects(h: Heap, descs: nat, obj: nat, i: nat, w: map<nat, nat>, v: nat)
    requires Ok(h, descs) && Live(h, obj, i)
    ensures ObjectsKept(h, w, w[obj := v], obj)
  {
    forall b: nat, j: nat, x: nat | Live(h, b, j) && b != obj && Inside(b, j, x) ensures x != obj {
      if b <= obj { LiveDisjoint(h, descs, b, j, obj, i); }
    }
  }

  /** Along a chain NULL comes at its end. */
  lemma ChainEnd(s: State, h: Heap, i: nat, k: nat)
    requires Rep(s, h) && i < |SIZES| && k <= |h.bucket[i]|
    ensures FirstId(h.bucket[i][k..]) == 0 <==> k == |h.bucket[i]|
    ensures k < |h.bucket[i]| ==>
              PageRep(s, h.bucket[i], k, i) && FirstId(h.bucket[i][k..]) == h.bucket[i][k].id
              && PageOk(h.bucket[i][k], i)
    ensures k < |h.bucket[i]| ==> (h.bucket[i][k].free == [] <==> First(h.bucket[i][k].free) == 0)
  {
    if k < |h.bucket[i]| {
      assert IsPage(h, i, k) && PageOk(PageAt(h, i, k), i);
      var free := PageAt(h, i, k).free;
      assert free != [] ==> IsSlot(PageAt(h, i, k).at, i, free[0]);
    }
  }

  lemma NextSlot(at: nat, i: nat, m: nat)
    requires i < |SIZES| && m + 1 < Slots(i)
    ensures AllSlots(at, i)[m + 1] == AllSlots(at, i)[m] + SIZES[i]
  {
    assert (m + 1) * SIZES[i] == m * SIZES[i] + SIZES[i];
  }

  lemma LinkedMore(word: map<nat, nat>, all: seq<nat>, m: nat, v: nat)
    requires m < |all| && LinkedTo(word, all, m) && v == First(all[m + 1..])
    requires forall k, l | 0 <= k < l < |all| :: all[k] != all[l]
    ensures LinkedTo(word[all[m] := v], all, m + 1)
  {
    var w := word[all[m] := v];
    forall k: nat | k < m + 1 ensures LinkedAt(w, all, k) { assert k < m ==> LinkedAt(word, all, k); }
  }

  ghost predicate LinkedTo(word: map<nat, nat>, all: seq<nat>, m: nat) {
    forall k: nat | k < m && k < |all| :: LinkedAt(word, all, k)
  }

  /** refcnt is the number of live objects on the page, and never 0. */
  lemma RefcntExact(s: State, h: Heap, i: nat, k: nat)
    requires Rep(s, h) && NoneEmpty(h) && IsPage(h, i, k)
    ensures var p := PageAt(h, i, k); p.id < |s.desc| && s.desc[p.id].refcnt == |LiveOn(p, i)| > 0
  {
    assert PageRep(s, h.bucket[i], k, i) && PageOk(PageAt(h, i, k), i);
    LiveCount(PageAt(h, i, k), i);
  }

  datatype Result = Object(at: nat) | BadArgument | NoMemory

  class Buckets {
    var word: map<nat, nat>
    var desc: seq<Desc>
    const chain: array<nat>
    var spare: nat
    ghost var heap: Heap

    ghost function S(): State
      reads this, chain
    {
      State(word, desc, chain[..], spare)
    }

    ghost predicate Valid()
      reads this, chain
    {
      Rep(S(), heap) && NoneEmpty(heap)
    }

    constructor ()
      ensures Valid() && forall a: nat, i: nat :: !Live(heap, a, i)
    {
      word, desc, spare := map[], [Desc(0, 0, 0, 0, 0)], 0;
      chain := new nat[|SIZES|](_ => 0);
      heap := Heap(seq(|SIZES|, _ => []), []);
    }

    /** The smallest class that fits, or the end of the list. */
    method BucketFor(len: nat) returns (i: nat)
      ensures i <= |SIZES| && (i < |SIZES| ==> len <= SIZES[i]) && forall j | 0 <= j < i :: SIZES[j] < len
    {
      i := 0;
      while i < |SIZES| && SIZES[i] < len
        invariant i <= |SIZES| && forall j | 0 <= j < i :: SIZES[j] < len
      {
        i := i + 1;
      }
    }

    /** The first descriptor of chain i with free space, 0 if there is none. */
    method FindSpace(i: nat) returns (d: nat, ghost k: nat)
      requires Rep(S(), heap) && i < |SIZES|
      ensures d != 0 ==> d < |desc| && desc[d].freeptr != 0
      ensures if d == 0 then forall l: nat | IsPage(heap, i, l) :: PageAt(heap, i, l).free == []
              else IsPage(heap, i, k) && d == PageAt(heap, i, k).id && PageAt(heap, i, k).free != []
                   && forall l: nat | l < k :: PageAt(heap, i, l).free == []
    {
      ghost var c := heap.bucket[i];
      d, k := chain[i], 0;
      ChainEnd(S(), heap, i, 0);
      while d != 0
        invariant k <= |c| && d == FirstId(c[k..]) && (d == 0 <==> k == |c|)
        invariant forall l: nat | l < k :: PageAt(heap, i, l).free == []
        decreases |c| - k
      {
        ChainEnd(S(), heap, i, k);
        if desc[d].freeptr != 0 { return; }
        d, k := desc[d].next, k + 1;
        ChainEnd(S(), heap, i, k);
      }
    }

    /** init_bucket_desc, once it has its page. */
    method InitBucketDesc()
      requires Rep(S(), heap) && heap.spare == [] && spare == 0
      modifies `desc, `spare, `heap
      ensures S() == RefilledState(old(S())) && heap == Refilled(old(heap), |old(desc)|) && Rep(S(), heap)
    {
      RefilledRep(S(), heap);
      var n, i := |desc|, 0;
      ghost var s := S();
      while i < DESCS_PER_PAGE
        invariant i <= DESCS_PER_PAGE && |desc| == n + i && desc[..n] == s.desc && spare == s.spare && heap == old(heap)
        invariant forall j: nat | j < i :: desc[n + j] == FreshDesc(s, j)
      {
        desc := desc + [Desc(0, if i + 1 < DESCS_PER_PAGE then n + i + 1 else spare, 0, 0, 0)];
        i := i + 1;
      }
      spare := n;
      heap := Refilled(heap, n);
      assert desc == RefilledState(s).desc;
    }

    /** The loop that links the slots of a new page. */
    method LinkSlots(at: nat, i: nat)
      requires i < |SIZES| && at > 0
      modifies `word
      ensures Linked(word, AllSlots(at, i))
      ensures forall a | a in old(word) && !(at <= a < at + PAGE_SIZE) :: a in word && word[a] == old(word)[a]
    {
      ghost var all := AllSlots(at, i);
      SlotsListed(at, i);
      assert all[0] == at;
      var cp, j := at, Slots(i);
      while j > 1
        invariant 1 <= j <= Slots(i) && cp == all[Slots(i) - j] && at <= cp < at + PAGE_SIZE
        invariant LinkedTo(word, all, Slots(i) - j)
        invariant forall a | a in old(word) && !(at <= a < at + PAGE_SIZE) :: a in word && word[a] == old(word)[a]
      {
        ghost var m := Slots(i) - j;
        assert all[m + 1] == cp + SIZES[i] by { NextSlot(at, i, m); }
        assert IsSlot(at, i, all[m + 1]);
        LinkedMore(word, all, m, cp + SIZES[i]);
        word := word[cp := cp + SIZES[i]];
        cp := cp + SIZES[i];
        j := j - 1;
      }
      LinkedMore(word, all, Slots(i) - 1, 0);
      word := word[cp := 0];
    }

    /** The rest of that: a descriptor, the page, and the two linked in. */
    method OpenPage(i: nat, page: nat)
      requires Rep(S(), heap) && i < |SIZES| && heap.spare != [] && page > 0 && NewPage(heap, page)
      modifies this, chain
      ensures Rep(S(), heap) && heap == Opened(old(heap), i, page)
      ensures forall a | a in old(word) && !(page <= a < page + PAGE_SIZE) :: a in word && word[a] == old(word)[a]
    {
      ghost var s := S();
      assert SpareRep(s, heap.spare, 0);
      var d := spare;
      spare := desc[d].next;
      LinkSlots(page, i);
      desc := desc[d := Desc(page, chain[i], page, 0, SIZES[i])];
      chain[i] := d;
      OpenedRep(s, heap, i, page, word);
      heap := Opened(heap, i, page);
      assert S() == OpenedState(s, i, page, word);
    }

    /** A new page of class i.  The panics are the two ways to be out of memory. */
    method AddPage(i: nat, room: bool, page: nat) returns (ok: bool)
      requires Rep(S(), heap) && i < |SIZES| && NewPage(heap, page)
      modifies this, chain
      ensures ok ==> Rep(S(), heap) && exists h: Heap ::
              h.bucket == old(heap).bucket && h.spare != [] && heap == Opened(h, i, page)
      ensures ok ==> page > 0 && forall a | a in old(word) && !(page <= a < page + PAGE_SIZE) ::
              a in word && word[a] == old(word)[a]
      ensures !ok ==> page == 0 || (!room && old(spare) == 0)
    {
      assert heap.spare != [] ==> SpareRep(S(), heap.spare, 0);
      if spare == 0 {
        if !room { return false; }
        InitBucketDesc();
      }
      if page == 0 { return false; }
      ghost var h := heap;
      assert forall i: nat, k: nat :: IsPage(h, i, k) <==> IsPage(old(heap), i, k);
      OpenPage(i, page);
      assert heap == Opened(h, i, page);
      ok := true;
    }

    /** malloc.  get_free_page is stood for by `room` (a page for descriptors) and `page`. */
    method Malloc(len: nat, room: bool, page: nat) returns (r: Result, ghost i: nat)
      requires Valid() && NewPage(heap, page)
      modifies this, chain
      ensures r == BadArgument <==> len > 4096
      ensures r == BadArgument ==> S() == old(S()) && heap == old(heap)
      ensures r == NoMemory ==>
                (page == 0 || !room)
                && forall l: nat | i < |SIZES| && IsPage(old(heap), i, l) :: PageAt(old(heap), i, l).free == []
      ensures r.Object? ==> && Valid() && i < |SIZES| && len <= SIZES[i] && (forall j | 0 <= j < i :: SIZES[j] < len)
                            && Allocated(old(heap), heap, r.at, i) && ObjectsKept(old(heap), old(word), word, 0)
      ensures r.Object? ==> i < |SIZES| && (SIZES[i] == 16 || SIZES[i] < 2 * len)
    {
      var n := BucketFor(len);
      i := n;
      assert 0 < n < |SIZES| ==> SIZES[n] == 2 * SIZES[n - 1];
      assert SIZES[|SIZES| - 1] == PAGE_SIZE;
      if n == |SIZES| { return BadArgument, i; }
      var d;
      ghost var k;
      d, k := FindSpace(n);
      ghost var h := heap;
      if d == 0 {
        var ok := AddPage(n, room, page);
        if !ok { return NoMemory, i; }
        AddedPage(h, |old(desc)|, heap, |desc|, n, page, old(word), word);
        d, k := chain[n], 0;
        assert PageRep(S(), heap.bucket[n], 0, n);
      }
      hide Rep, Ok, NoneEmpty, Live, AllSlots;
      var a := TakeSlot(n, d, k);
      r := Object(a);
    }

    /** The last lines of malloc. */
    method TakeSlot(i: nat, d: nat, ghost k: nat) returns (a: nat)
      requires Rep(S(), heap) && IsPage(heap, i, k) && d == PageAt(heap, i, k).id && PageAt(heap, i, k).free != []
      requires forall j: nat, l: nat | IsPage(heap, j, l) && (j != i || l != k) :: |PageAt(heap, j, l).free| < Slots(j)
      modifies `desc, `heap
      ensures Valid() && Allocated(old(heap), heap, a, i)
    {
      TookRep(S(), heap, i, k);
      TookLive(heap, |desc|, i, k);
      TookNoneEmpty(heap, |desc|, i, k);
      ghost var s := S();
      a := desc[d].freeptr;
      desc := desc[d := desc[d].(freeptr := word[a], refcnt := desc[d].refcnt + 1)];
      heap := TookHeap(heap, i, k);
      assert S() == TookState(s, d);
    }

    // ---- free_s ----

    /** The search of free_s: chain after chain, those with slots smaller than the hint left out. */
    method FindPage(page: nat, size: int) returns (found: bool, j: nat, d: nat, prev: nat, ghost k: nat)
      requires Valid()
      ensures found ==>
                && IsPage(heap, j, k) && PageAt(heap, j, k).at == page && size <= SIZES[j]
                && d == PageAt(heap, j, k).id && prev == PrevId(heap.bucket[j], k)
      ensures !found ==> forall i: nat, l: nat | IsPage(heap, i, l) && PageAt(heap, i, l).at == page :: size > SIZES[i]
    {
      found, j, d, prev, k := false, 0, 0, 0, 0;
      while j < |SIZES|
        invariant j <= |SIZES| && !found
        invariant forall i: nat, l: nat | i < j && IsPage(heap, i, l) && PageAt(heap, i, l).at == page ::
                  size > SIZES[i]
      {
        if SIZES[j] >= size {
          found, d, prev, k := FindInChain(j, page);
          if found { return; }
        }
        j := j + 1;
      }
    }

    method FindInChain(j: nat, page: nat) returns (found: bool, d: nat, prev: nat, ghost k: nat)
      requires Valid() && j < |SIZES|
      ensures found ==>
                && IsPage(heap, j, k) && PageAt(heap, j, k).at == page
                && d == PageAt(heap, j, k).id && prev == PrevId(heap.bucket[j], k)
      ensures !found ==> forall l: nat | IsPage(heap, j, l) :: PageAt(heap, j, l).at != page
    {
      ghost var c := heap.bucket[j];
      d, prev, k := chain[j], 0, 0;
      ChainEnd(S(), heap, j, 0);
      while d != 0
        invariant k <= |c| && d == FirstId(c[k..]) && prev == PrevId(c, k) && (d == 0 <==> k == |c|)
        invariant forall l: nat | l < k :: PageAt(heap, j, l).at != page
        decreases |c| - k
      {
        ChainEnd(S(), heap, j, k);
        if desc[d].page == page { return true, d, prev, k; }
        prev, d, k := d, desc[d].next, k + 1;
        ChainEnd(S(), heap, j, k);
      }
      found := false;
    }

    /** free_s; `size` is the caller's hint, 0 for none.  When the page is malloc's, the address is a live object
        in it.  The panic is for an address in none of its pages, and for a hint that is too large for the
        object; any other hint makes no difference. */
    method FreeS(obj: nat, size: int) returns (ok: bool, ghost i: nat, ghost k: nat)
      requires Valid()
      requires forall j: nat, l: nat | IsPage(heap, j, l) && PageAt(heap, j, l).at == obj - obj % PAGE_SIZE ::
                 IsSlot(PageAt(heap, j, l).at, j, obj) && obj !in PageAt(heap, j, l).free
      modifies this, chain
      ensures ok ==> IsPage(old(heap), i, k) && IsSlot(PageAt(old(heap), i, k).at, i, obj) && size <= SIZES[i]
      ensures ok ==> Valid() && heap == AfterFree(old(heap), i, k, obj) && Freed(old(heap), heap, obj)
      ensures ok ==> ObjectsKept(old(heap), old(word), word, obj)
      ensures !ok ==> S() == old(S()) && heap == old(heap)
      ensures !ok ==> forall j: nat, l: nat | IsPage(heap, j, l) && PageAt(heap, j, l).at == obj - obj % PAGE_SIZE ::
              size > SIZES[j]
    {
      var j, d, prev;
      ok, j, d, prev, k := FindPage(obj - obj % PAGE_SIZE, size);
      i := j;
      if !ok { return; }
      ghost var p, h := PageAt(heap, i, k), heap;
      assert PageOk(p, i) && PageRep(S(), heap.bucket[i], k, i);
      PageOfSlot(p.at, obj);
      assert Live(heap, obj, i);
      GaveObjects(heap, |desc|, obj, i, word, desc[d].freeptr);
      AfterFreeLive(heap, |desc|, i, k, obj);
      GaveRep(S(), heap, i, k, obj);
      ghost var s := S();
      word := word[obj := desc[d].freeptr];
      desc := desc[d := desc[d].(freeptr := obj, refcnt := desc[d].refcnt - 1)];
      heap := GaveHeap(heap, i, k, obj);
      assert S() == GaveState(s, d, obj);
      assert PageRep(S(), heap.bucket[i], k, i);
      if desc[d].refcnt == 0 { Release(j, d, prev, k); }
    }

    /** The page of descriptor d is empty: d leaves its chain.  That nobody has changed the chain since the
        search, so that prev is still right, is proved here; the source looks again. */
    method Release(i: nat, d: nat, prev: nat, ghost k: nat)
      requires Rep(S(), heap) && IsPage(heap, i, k) && d == PageAt(heap, i, k).id && prev == PrevId(heap.bucket[i], k)
      modifies `desc, `spare, `heap, chain
      ensures Rep(S(), heap) && heap == Closed(old(heap), i, k)
    {
      ghost var s, c := S(), heap.bucket[i];
      assert PageRep(s, c, k, i);
      assert k > 0 ==> IsPage(heap, i, k - 1) && PageRep(s, c, k - 1, i) && c[k..][0] == c[k];
      assert if prev != 0 then desc[prev].next == d else chain[i] == d;
      ClosedRep(s, heap, i, k);
      if prev != 0 {
        desc := desc[prev := desc[prev].(next := desc[d].next)];
      } else {
        chain[i] := desc[d].next;
      }
      desc := desc[d := desc[d].(next := spare)];
      spare := d;
      heap := Closed(heap, i, k);
      assert S() == ClosedState(s, i, prev, d);
    }
  }

  lemma AddedPage(h: Heap, descs: nat, g: Heap, now: nat, i: nat, page: nat, w: map<nat, nat>, v: map<nat, nat>)
    requires Ok(h, descs) && NoneEmpty(h) && Ok(g, now) && i < |SIZES| && NewPage(h, page) && page > 0
    requires exists f: Heap :: f.bucket == h.bucket && f.spare != [] && g == Opened(f, i, page)
    requires forall a | a in w && !(page <= a < page + PAGE_SIZE) :: a in v && v[a] == w[a]
    ensures IsPage(g, i, 0) && PageAt(g, i, 0).free != []
    ensures forall j: nat, l: nat | IsPage(g, j, l) && (j != i || l != 0) :: |PageAt(g, j, l).free| < Slots(j)
    ensures forall b: nat, j: nat :: Live(g, b, j) <==> Live(h, b, j)
    ensures ObjectsKept(h, w, v, 0)
  {
    var f: Heap :| f.bucket == h.bucket && f.spare != [] && g == Opened(f, i, page);
    forall j: nat, l: nat ensures IsPage(f, j, l) <==> IsPage(h, j, l) {}
    OpenedObjects(h, descs, i, page, w, v, 0);
    forall b: nat, j: nat ensures Live(g, b, j) <==> Live(h, b, j) {
      OpenedLive(f, i, page, b, j);
      SameBuckets(f, h, b, j);
    }
    forall j: nat, l: nat | IsPage(g, j, l) && (j != i || l != 0) ensures |PageAt(g, j, l).free| < Slots(j) {
      var m := if j == i then l - 1 else l;
      assert IsPage(h, j, m) && PageAt(h, j, m) == PageAt(f, j, m) == PageAt(g, j, l);
    }
  }

  lemma SameBuckets(f: Heap, h: Heap, b: nat, j: nat)
    requires f.bucket == h.bucket
    ensures Live(f, b, j) <==> Live(h, b, j)
  {
    if Live(f, b, j) {
      var k: nat :| IsPage(f, j, k) && IsSlot(PageAt(f, j, k).at, j, b) && b !in PageAt(f, j, k).free;
      assert IsPage(h, j, k) && PageAt(h, j, k) == PageAt(f, j, k);
    }
    if Live(h, b, j) {
      var k: nat :| IsPage(h, j, k) && IsSlot(PageAt(h, j, k).at, j, b) && b !in PageAt(h, j, k).free;
      assert IsPage(f, j, k) && PageAt(h, j, k) == PageAt(f, j, k);
    }
  }
}
