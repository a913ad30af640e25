/** lib/malloc.c: pages cut into equal slots, one page size class to a chain; the free slots of a page are
    linked through their own first words, and the bucket descriptors are recycled. */
module Malloc {
  import opened Counting

  const PAGE_SIZE := 4096
  const SIZES: seq<nat> := [16, 32, 64, 128, 256, 512, 1024, 2048, 4096]
  const DESCS_PER_PAGE := 256

  // ---- The heap without its pointers ----

  /** Descriptor `id` for the page at `at`, with the free slots in chain order. */
  datatype Page = Page(id: nat, at: nat, free: seq<nat>)

  /** bucket[i]: the pages cut into slots of SIZES[i]; spare: the descriptors not in use. */
  datatype Heap = Heap(bucket: seq<seq<Page>>, spare: seq<nat>)

  predicate IsSlot(at: nat, i: nat, a: nat)
    requires i < |SIZES|
  {
    at <= a < at + PAGE_SIZE && (a - at) % SIZES[i] == 0
  }

  function Slots(i: nat): (n: nat)
    requires i < |SIZES|
    ensures n > 0 && n * SIZES[i] == PAGE_SIZE
  {
    PAGE_SIZE / SIZES[i]
  }

  function AllSlots(at: nat, i: nat): (r: seq<nat>)
    requires i < |SIZES|
    ensures |r| == Slots(i) && forall j: nat | j < |r| :: r[j] == at + j * SIZES[i]
  {
    seq(Slots(i), j requires 0 <= j => at + j * SIZES[i])
  }

  predicate IsPage(h: Heap, i: nat, k: nat) { i < |SIZES| && i < |h.bucket| && k < |h.bucket[i]| }

  function PageAt(h: Heap, i: nat, k: nat): Page
    requires IsPage(h, i, k)
  {
    h.bucket[i][k]
  }

  predicate PageOk(p: Page, i: nat)
    requires i < |SIZES|
  {
    && p.at > 0 && p.at % PAGE_SIZE == 0
    && (forall m | 0 <= m < |p.free| :: IsSlot(p.at, i, p.free[m]))
    && (forall m, n | 0 <= m < n < |p.free| :: p.free[m] != p.free[n])
  }

  /** Where a descriptor is. */
  datatype Spot = OfPage(i: nat, k: nat) | Spare(k: nat)

  predicate IsSpot(h: Heap, x: Spot) {
    match x
    case OfPage(i, k) => IsPage(h, i, k)
    case Spare(k) => k < |h.spare|
  }

  function IdAt(h: Heap, x: Spot): nat
    requires IsSpot(h, x)
  {
    match x
    case OfPage(i, k) => h.bucket[i][k].id
    case Spare(k) => h.spare[k]
  }

  ghost predicate Placed(h: Heap, d: nat) { exists x :: IsSpot(h, x) && IdAt(h, x) == d }

  /** Of descriptors 1 .. descs - 1 each is at one spot. */
  ghost predicate DescsConserved(h: Heap, descs: nat) {
    && (forall x | IsSpot(h, x) :: 0 < IdAt(h, x) < descs)
    && (forall x, y | IsSpot(h, x) && IsSpot(h, y) && IdAt(h, x) == IdAt(h, y) :: x == y)
    && (forall d: nat | 0 < d < descs :: Placed(h, d))
  }

  ghost predicate PagesApart(h: Heap) {
    forall i: nat, k: nat, j: nat, l: nat | IsPage(h, i, k) && IsPage(h, j, l)
        && PageAt(h, i, k).at == PageAt(h, j, l).at :: i == j && k == l
  }

  ghost predicate Ok(h: Heap, descs: nat) {
    && |h.bucket| == |SIZES| && (forall i: nat, k: nat | IsPage(h, i, k) :: PageOk(PageAt(h, i, k), i))
    && PagesApart(h) && DescsConserved(h, descs)
  }

  /** Every page holds a live object. */
  ghost predicate NoneEmpty(h: Heap) { forall i: nat, k: nat | IsPage(h, i, k) :: |PageAt(h, i, k).free| < Slots(i) }

  /** a is a live object of size class i. */
  ghost predicate Live(h: Heap, a: nat, i: nat) {
    exists k: nat :: IsPage(h, i, k) && IsSlot(PageAt(h, i, k).at, i, a) && a !in PageAt(h, i, k).free
  }

  // ---- Live objects ----

  predicate IsSize(z: nat) { z in {16, 32, 64, 128, 256, 512, 1024, 2048, 4096} }

  /** Every size divides a page. */
  lemma Divides(z: nat)
    requires IsSize(z)
    ensures PAGE_SIZE % z == 0 && (PAGE_SIZE / z) * z == PAGE_SIZE
  {}

  lemma Monotone(a: int, b: int, z: nat)
    ensures a <= b ==> a * z <= b * z
  {
    if a <= b { assert (b - a) * z >= 0; }
  }

  lemma Multiples(z: nat, x: nat, y: nat)
    requires z > 0 && x % z == 0 && y % z == 0 && x < y
    ensures x + z <= y
  {
    var a, b := x / z, y / z;
    assert x == a * z && y == b * z;
    Monotone(b, a, z);
    Monotone(a + 1, b, z);
    assert (a + 1) * z == a * z + z;
  }

  lemma Times(z: nat, j: nat)
    requires z > 0
    ensures (j * z) % z == 0
  {
    var d := j - (j * z) / z;
    assert d * z == (j * z) % z;
    Monotone(1, d, z);
    Monotone(d, -1, z);
    assert d == 0;
  }

  lemma Quotient(z: nat, x: nat)
    requires IsSize(z) && x % z == 0 && x < PAGE_SIZE
    ensures (x / z) * z == x && x / z < PAGE_SIZE / z
  {
    Divides(z);
    Monotone(PAGE_SIZE / z, x / z, z);
  }

  lemma SlotsApart(at: nat, i: nat, a: nat, b: nat)
    requires i < |SIZES| && IsSlot(at, i, a) && IsSlot(at, i, b) && a < b
    ensures a + SIZES[i] <= b
  {
    Multiples(SIZES[i], a - at, b - at);
  }

  lemma SlotEnds(at: nat, i: nat, a: nat)
    requires i < |SIZES| && IsSlot(at, i, a)
    ensures a + SIZES[i] <= at + PAGE_SIZE
  {
    Divides(SIZES[i]);
    Multiples(SIZES[i], a - at, PAGE_SIZE);
  }

  lemma PageOfSlot(at: nat, a: nat)
    requires at <= a < at + PAGE_SIZE && at % PAGE_SIZE == 0
    ensures a - a % PAGE_SIZE == at
  {}

  lemma PagesAligned(x: nat, y: nat)
    requires x % PAGE_SIZE == 0 && y % PAGE_SIZE == 0
    ensures x < y ==> x + PAGE_SIZE <= y
    ensures y < x ==> y + PAGE_SIZE <= x
  {}

  /** Live objects do not overlap, whatever their sizes. */
  lemma LiveDisjoint(h: Heap, descs: nat, a: nat, i: nat, b: nat, j: nat)
    requires Ok(h, descs) && Live(h, a, i) && Live(h, b, j) && a <= b
    ensures (a == b && i == j) || a + SIZES[i] <= b
  {
    var k: nat :| IsPage(h, i, k) && IsSlot(PageAt(h, i, k).at, i, a) && a !in PageAt(h, i, k).free;
    var l: nat :| IsPage(h, j, l) && IsSlot(PageAt(h, j, l).at, j, b) && b !in PageAt(h, j, l).free;
    assert PagesApart(h);
    TwoPages(PageAt(h, i, k), i, a, PageAt(h, j, l), j, b);
  }

  lemma TwoPages(p: Page, i: nat, a: nat, q: Page, j: nat, b: nat)
    requires i < |SIZES| && j < |SIZES| && PageOk(p, i) && PageOk(q, j) && (p.at == q.at ==> i == j)
    requires IsSlot(p.at, i, a) && IsSlot(q.at, j, b) && a <= b
    ensures (a == b && i == j) || a + SIZES[i] <= b
  {
    SlotEnds(p.at, i, a);
    PagesAligned(p.at, q.at);
    if p.at == q.at && a < b { SlotsApart(p.at, i, a, b); }
  }

  /** An object is aligned to its size and does not cross a page boundary. */
  lemma ObjectAligned(h: Heap, descs: nat, a: nat, i: nat)
    requires Ok(h, descs) && Live(h, a, i)
    ensures i < |SIZES| && a > 0 && a % SIZES[i] == 0 && a / 4096 == (a + SIZES[i] - 1) / 4096
  {
    var k: nat :| IsPage(h, i, k) && IsSlot(PageAt(h, i, k).at, i, a) && a !in PageAt(h, i, k).free;
    var at := PageAt(h, i, k).at;
    assert PageOk(PageAt(h, i, k), i);
    SlotEnds(at, i, a);
    hide *;
    Aligned(at, i, a);
  }

  lemma Aligned(at: nat, i: nat, a: nat)
    requires i < |SIZES| && at % PAGE_SIZE == 0 && at <= a && (a - at) % SIZES[i] == 0 && a + SIZES[i] <= at + PAGE_SIZE
    ensures a % SIZES[i] == 0 && a / 4096 == (a + SIZES[i] - 1) / 4096
  {
    var z, p, m := SIZES[i], at / PAGE_SIZE, (a - at) / SIZES[i];
    assert PAGE_SIZE == z * (PAGE_SIZE / z);
    MultipleOf(z, PAGE_SIZE / z * p + m, a) by {
      assert a - at == z * m && at == PAGE_SIZE * p;
      Regroup(z, PAGE_SIZE / z, p, m);
    }
    InOnePage(p, a, z);
  }

  lemma Regroup(z: nat, k: nat, p: nat, m: nat)
    ensures z * k * p + z * m == z * (k * p + m)
  {}

  lemma MultipleOf(z: nat, k: nat, a: nat)
    requires z > 0 && a == z * k
    ensures a % z == 0
  {
    var d, r := k - a / z, a % z;
    assert z * d == r by { assert a == z * (a / z) + r; }
    Monotone(1, d, z);
    Monotone(d, 0, z);
  }

  lemma InOnePage(p: nat, a: nat, z: nat)
    requires p * 4096 <= a && a + z <= p * 4096 + 4096 && z > 0
    ensures a / 4096 == p == (a + z - 1) / 4096
  {}

  function SlotSet(at: nat, i: nat): set<nat>
    requires i < |SIZES|
  {
    set a | at <= a < at + PAGE_SIZE && IsSlot(at, i, a)
  }

  lemma SlotCount(at: nat, i: nat)
    requires i < |SIZES|
    ensures |SlotSet(at, i)| == Slots(i)
  {
    var all := AllSlots(at, i);
    SlotsListed(at, i);
    DistinctSize(all);
    assert SlotSet(at, i) == Elements(all);
  }

  lemma SlotsListed(at: nat, i: nat)
    requires i < |SIZES|
    ensures var all := AllSlots(at, i);
            && (forall a | a in SlotSet(at, i) :: a in all)
            && (forall m | 0 <= m < |all| :: IsSlot(at, i, all[m]))
            && (forall m, n | 0 <= m < n < |all| :: all[m] != all[n])
  {
    var all, z := AllSlots(at, i), SIZES[i];
    forall j: nat | j < |all| ensures IsSlot(at, i, all[j]) && (j + 1 < |all| ==> all[j] < all[j + 1]) {
      Times(z, j);
      SlotInside(z, j);
    }
    forall a | a in SlotSet(at, i) ensures a in all {
      Quotient(z, a - at);
      assert all[(a - at) / z] == a;
    }
    Increasing(all);
  }

  lemma SlotInside(z: nat, j: nat)
    requires IsSize(z) && j < PAGE_SIZE / z
    ensures 0 <= j * z < (j + 1) * z <= PAGE_SIZE
  {
    Divides(z);
    Monotone(j + 1, PAGE_SIZE / z, z);
    assert (j + 1) * z == j * z + z;
  }

  lemma {:induction false} Increasing(x: seq<nat>)
    requires forall j: nat | j + 1 < |x| :: x[j] < x[j + 1]
    ensures forall m, n | 0 <= m < n < |x| :: x[m] != x[n]
  {
    forall m, n | 0 <= m < n < |x| ensures x[m] < x[n] { Above(x, m, n); }
  }

  lemma {:induction false} Above(x: seq<nat>, m: nat, n: nat)
    requires (forall j: nat | j + 1 < |x| :: x[j] < x[j + 1]) && m < n < |x|
    ensures x[m] < x[n]
  {
    if m + 1 < n { Above(x, m, n - 1); }
    assert x[n - 1] < x[n - 1 + 1];
  }

  /** The live objects of a page. */
  function LiveOn(p: Page, i: nat): set<nat>
    requires i < |SIZES|
  {
    SlotSet(p.at, i) - Elements(p.free)
  }

  /** How many they are follows from the length of the free chain. */
  lemma LiveCount(p: Page, i: nat)
    requires i < |SIZES| && PageOk(p, i)
    ensures |p.free| <= Slots(i) && |LiveOn(p, i)| == Slots(i) - |p.free|
  {
    SlotCount(p.at, i);
    DistinctSize(p.free);
    assert Elements(p.free) <= SlotSet(p.at, i);
    assert SlotSet(p.at, i) == LiveOn(p, i) + Elements(p.free);
  }

  // ---- What happens to it ----

  /** Page k of bucket i has other free slots. */
  function SetFree(h: Heap, i: nat, k: nat, free: seq<nat>): (g: Heap)
    requires IsPage(h, i, k)
    ensures |g.bucket| == |h.bucket| && g.spare == h.spare
    ensures forall j: nat, l: nat :: IsPage(g, j, l) <==> IsPage(h, j, l)
    ensures forall j: nat, l: nat | IsPage(h, j, l) ::
              PageAt(g, j, l) == if j == i && l == k then Page(PageAt(h, i, k).id, PageAt(h, i, k).at, free)
                  else PageAt(h, j, l)
  {
    var c := h.bucket[i];
    Heap(h.bucket[i := c[k := Page(c[k].id, c[k].at, free)]], h.spare)
  }

  /** A descriptor is taken for a new page, all of whose slots are free. */
  function Opened(h: Heap, i: nat, at: nat): (g: Heap)
    requires i < |SIZES| && i < |h.bucket| && h.spare != []
    ensures |g.bucket| == |h.bucket| && g.spare == h.spare[1..]
    ensures forall j: nat, l: nat :: IsPage(g, j, l) <==> if j == i then l <= |h.bucket[i]| else IsPage(h, j, l)
    ensures forall j: nat, l: nat | IsPage(g, j, l) ::
              PageAt(g, j, l) == if j != i then PageAt(h, j, l)
                                 else if l == 0 then Page(h.spare[0], at, AllSlots(at, i)) else PageAt(h, i, l - 1)
  {
    var c := [Page(h.spare[0], at, AllSlots(at, i))] + h.bucket[i];
    var g := Heap(h.bucket[i := c], h.spare[1..]);
    assert PageAt(g, i, 0) == c[0];
    assert forall l: nat | IsPage(g, i, l) && l > 0 :: PageAt(g, i, l) == PageAt(h, i, l - 1);
    assert forall j: nat, l: nat | IsPage(g, j, l) && j != i :: PageAt(g, j, l) == PageAt(h, j, l);
    g
  }

  /** A page is given back, and its descriptor kept. */
  function Closed(h: Heap, i: nat, k: nat): (g: Heap)
    requires IsPage(h, i, k)
    ensures |g.bucket| == |h.bucket| && g.spare == [PageAt(h, i, k).id] + h.spare
    ensures forall j: nat, l: nat :: IsPage(g, j, l) <==> if j == i then l + 1 < |h.bucket[i]| else IsPage(h, j, l)
    ensures forall j: nat, l: nat | IsPage(g, j, l) ::
            PageAt(g, j, l) == if j != i || l < k then PageAt(h, j, l) else PageAt(h, j, l + 1)
  {
    var c := h.bucket[i][..k] + h.bucket[i][k + 1..];
    var g := Heap(h.bucket[i := c], [h.bucket[i][k].id] + h.spare);
    assert forall l: nat | IsPage(g, i, l) && l >= k :: PageAt(g, i, l) == PageAt(h, i, l + 1);
    assert forall j: nat, l: nat | IsPage(g, j, l) && (j != i || l < k) :: PageAt(g, j, l) == PageAt(h, j, l);
    g
  }

  function Refilled(h: Heap, descs: nat): Heap { h.(spare := seq(DESCS_PER_PAGE, j requires 0 <= j => descs + j)) }

  lemma SetFreeOk(h: Heap, descs: nat, i: nat, k: nat, free: seq<nat>)
    requires Ok(h, descs) && IsPage(h, i, k) && PageOk(Page(PageAt(h, i, k).id, PageAt(h, i, k).at, free), i)
    ensures Ok(SetFree(h, i, k, free), descs)
  {
    var g := SetFree(h, i, k, free);
    assert forall x :: IsSpot(g, x) <==> IsSpot(h, x);
    assert forall x | IsSpot(h, x) :: IdAt(g, x) == IdAt(h, x) by {
      forall x | IsSpot(h, x) ensures IdAt(g, x) == IdAt(h, x) {
        if x.OfPage? { assert PageAt(g, x.i, x.k).id == PageAt(h, x.i, x.k).id; }
      }
    }
    hide SetFree, PageOk;
    forall d: nat | 0 < d < descs ensures Placed(g, d) {
      assert Placed(h, d);
      var x :| IsSpot(h, x) && IdAt(h, x) == d;
      assert IdAt(g, x) == d;
    }
  }

  /** Where the descriptor at spot x of the new heap was. */
  function OpenedFrom(x: Spot, i: nat): Spot {
    match x
    case OfPage(j, l) => if j == i then if l == 0 then Spare(0) else OfPage(i, l - 1) else x
    case Spare(l) => Spare(l + 1)
  }

  function OpenedTo(x: Spot, i: nat): Spot {
    match x
    case OfPage(j, l) => if j == i then OfPage(i, l + 1) else x
    case Spare(l) => if l == 0 then OfPage(i, 0) else Spare(l - 1)
  }

  function ClosedFrom(x: Spot, i: nat, k: nat): Spot {
    match x
    case OfPage(j, l) => if j == i && l >= k then OfPage(i, l + 1) else x
    case Spare(l) => if l == 0 then OfPage(i, k) else Spare(l - 1)
  }

  function ClosedTo(x: Spot, i: nat, k: nat): Spot {
    match x
    case OfPage(j, l) => if j == i && l == k then Spare(0) else if j == i && l > k then OfPage(i, l - 1) else x
    case Spare(l) => Spare(l + 1)
  }

  lemma OpenedSpots(h: Heap, i: nat, at: nat, x: Spot)
    requires i < |SIZES| && i < |h.bucket| && h.spare != []
    ensures var g := Opened(h, i, at);
            && (IsSpot(g, x) ==>
                 IsSpot(h, OpenedFrom(x, i)) && IdAt(g, x) == IdAt(h, OpenedFrom(x, i))
                 && OpenedTo(OpenedFrom(x, i), i) == x)
            && (IsSpot(h, x) ==> IsSpot(g, OpenedTo(x, i)) && IdAt(g, OpenedTo(x, i)) == IdAt(h, x))
  {}

  lemma ClosedSpots(h: Heap, i: nat, k: nat, x: Spot)
    requires IsPage(h, i, k)
    ensures var g := Closed(h, i, k);
            && (IsSpot(g, x) ==>
                 IsSpot(h, ClosedFrom(x, i, k)) && IdAt(g, x) == IdAt(h, ClosedFrom(x, i, k))
                 && ClosedTo(ClosedFrom(x, i, k), i, k) == x)
            && (IsSpot(h, x) ==> IsSpot(g, ClosedTo(x, i, k)) && IdAt(g, ClosedTo(x, i, k)) == IdAt(h, x))
  {}

  lemma AllSlotsOk(d: nat, at: nat, i: nat)
    requires i < |SIZES| && at > 0 && at % PAGE_SIZE == 0
    ensures PageOk(Page(d, at, AllSlots(at, i)), i)
  {
    SlotsListed(at, i);
  }

  lemma OpenedOk(h: Heap, descs: nat, i: nat, at: nat)
    requires Ok(h, descs) && i < |SIZES| && h.spare != [] && at > 0 && at % PAGE_SIZE == 0
    requires forall j: nat, l: nat | IsPage(h, j, l) :: PageAt(h, j, l).at != at
    ensures Ok(Opened(h, i, at), descs)
  {
    var g := Opened(h, i, at);
    AllSlotsOk(h.spare[0], at, i);
    hide PageOk, AllSlots;
    forall j: nat, l: nat | IsPage(g, j, l) ensures PageOk(PageAt(g, j, l), j) {
      if j == i && l > 0 { assert IsPage(h, i, l - 1); } else if j != i { assert IsPage(h, j, l); }
    }
    forall j: nat, l: nat, m: nat, n: nat | IsPage(g, j, l) && IsPage(g, m, n)
        && PageAt(g, j, l).at == PageAt(g, m, n).at
      ensures j == m && l == n
    {
      var x, y := OpenedFrom(OfPage(j, l), i), OpenedFrom(OfPage(m, n), i);
      if x.OfPage? { assert IsPage(h, x.i, x.k) && PageAt(h, x.i, x.k).at == PageAt(g, j, l).at; }
      if y.OfPage? { assert IsPage(h, y.i, y.k) && PageAt(h, y.i, y.k).at == PageAt(g, m, n).at; }
    }
    forall x | IsSpot(g, x) ensures 0 < IdAt(g, x) < descs { OpenedSpots(h, i, at, x); }
    forall x, y | IsSpot(g, x) && IsSpot(g, y) && IdAt(g, x) == IdAt(g, y) ensures x == y {
      OpenedSpots(h, i, at, x);
      OpenedSpots(h, i, at, y);
    }
    forall d: nat | 0 < d < descs ensures Placed(g, d) {
      assert Placed(h, d);
      var x :| IsSpot(h, x) && IdAt(h, x) == d;
      OpenedSpots(h, i, at, x);
    }
  }

  lemma ClosedOk(h: Heap, descs: nat, i: nat, k: nat)
    requires Ok(h, descs) && IsPage(h, i, k)
    ensures Ok(Closed(h, i, k), descs)
  {
    var g := Closed(h, i, k);
    hide PageOk;
    forall j: nat, l: nat | IsPage(g, j, l) ensures PageOk(PageAt(g, j, l), j) {
      if j == i && l >= k { assert IsPage(h, i, l + 1); } else { assert IsPage(h, j, l); }
    }
    forall j: nat, l: nat, m: nat, n: nat | IsPage(g, j, l) && IsPage(g, m, n)
        && PageAt(g, j, l).at == PageAt(g, m, n).at
      ensures j == m && l == n
    {
      var x, y := ClosedFrom(OfPage(j, l), i, k), ClosedFrom(OfPage(m, n), i, k);
      assert IsPage(h, x.i, x.k) && PageAt(h, x.i, x.k).at == PageAt(g, j, l).at;
      assert IsPage(h, y.i, y.k) && PageAt(h, y.i, y.k).at == PageAt(g, m, n).at;
    }
    forall x | IsSpot(g, x) ensures 0 < IdAt(g, x) < descs { ClosedSpots(h, i, k, x); }
    forall x, y | IsSpot(g, x) && IsSpot(g, y) && IdAt(g, x) == IdAt(g, y) ensures x == y {
      ClosedSpots(h, i, k, x);
      ClosedSpots(h, i, k, y);
    }
    forall d: nat | 0 < d < descs ensures Placed(g, d) {
      assert Placed(h, d);
      var x :| IsSpot(h, x) && IdAt(h, x) == d;
      ClosedSpots(h, i, k, x);
    }
  }

  lemma RefilledOk(h: Heap, descs: nat)
    requires Ok(h, descs) && h.spare == [] && descs > 0
    ensures Ok(Refilled(h, descs), descs + DESCS_PER_PAGE)
  {
    var g := Refilled(h, descs);
    assert forall i: nat, k: nat :: IsPage(g, i, k) <==> IsPage(h, i, k);
    assert forall i: nat, k: nat | IsPage(h, i, k) :: PageAt(g, i, k) == PageAt(h, i, k);
    assert forall x | IsSpot(g, x) && x.OfPage? :: IsSpot(h, x) && IdAt(g, x) == IdAt(h, x);
    hide PageOk, PagesApart;
    forall d: nat | 0 < d < descs + DESCS_PER_PAGE ensures Placed(g, d) {
      if d < descs {
        assert Placed(h, d);
        var x :| IsSpot(h, x) && IdAt(h, x) == d;
        assert IsSpot(g, x) && IdAt(g, x) == d;
      } else {
        assert IdAt(g, Spare(d - descs)) == d;
      }
    }
  }

  // ---- Which objects are live ----

  lemma SamePage(h: Heap, descs: nat, i: nat, k: nat, j: nat, l: nat, a: nat)
    requires Ok(h, descs) && IsPage(h, i, k) && IsPage(h, j, l) && IsSlot(PageAt(h, i, k).at, i, a)
             && IsSlot(PageAt(h, j, l).at, j, a)
    ensures i == j && k == l
  {
    assert PageOk(PageAt(h, i, k), i) && PageOk(PageAt(h, j, l), j) && PagesApart(h);
    PageOfSlot(PageAt(h, i, k).at, a);
    PageOfSlot(PageAt(h, j, l).at, a);
  }

  /** A slot is live unless its own page lists it as free. */
  lemma LiveIff(h: Heap, descs: nat, i: nat, k: nat, a: nat, j: nat)
    requires Ok(h, descs) && IsPage(h, i, k) && IsSlot(PageAt(h, i, k).at, i, a)
    ensures Live(h, a, j) <==> j == i && a !in PageAt(h, i, k).free
  {
    if Live(h, a, j) {
      var l: nat :| IsPage(h, j, l) && IsSlot(PageAt(h, j, l).at, j, a) && a !in PageAt(h, j, l).free;
      SamePage(h, descs, i, k, j, l, a);
    }
  }

  lemma SetFreeLive(h: Heap, descs: nat, i: nat, k: nat, free: seq<nat>, a: nat, b: nat, j: nat)
    requires Ok(h, descs) && IsPage(h, i, k) && PageOk(Page(PageAt(h, i, k).id, PageAt(h, i, k).at, free), i)
    requires forall x | x != a :: x in free <==> x in PageAt(h, i, k).free
    requires IsSlot(PageAt(h, i, k).at, i, a)
    ensures Live(SetFree(h, i, k, free), b, j) <==> if b == a then j == i && a !in free else Live(h, b, j)
  {
    var g := SetFree(h, i, k, free);
    SetFreeOk(h, descs, i, k, free);
    if b == a { LiveIff(g, descs, i, k, a, j); }
    hide Ok, PageOk, SetFree;
    if Live(h, b, j) && b != a {
      var l: nat :| IsPage(h, j, l) && IsSlot(PageAt(h, j, l).at, j, b) && b !in PageAt(h, j, l).free;
      assert IsPage(g, j, l) && PageAt(g, j, l).at == PageAt(h, j, l).at && b !in PageAt(g, j, l).free;
    }
    if Live(g, b, j) && b != a {
      var l: nat :| IsPage(g, j, l) && IsSlot(PageAt(g, j, l).at, j, b) && b !in PageAt(g, j, l).free;
      assert IsPage(h, j, l) && PageAt(h, j, l).at == PageAt(g, j, l).at && b !in PageAt(h, j, l).free;
    }
  }

  lemma OpenedLive(h: Heap, i: nat, at: nat, b: nat, j: nat)
    requires i < |SIZES| && i < |h.bucket| && h.spare != []
    ensures Live(Opened(h, i, at), b, j) <==> Live(h, b, j)
  {
    var g := Opened(h, i, at);
    SlotsListed(at, i);
    assert forall x | IsSlot(at, i, x) :: x in SlotSet(at, i);
    if Live(h, b, j) {
      var l: nat :| IsPage(h, j, l) && IsSlot(PageAt(h, j, l).at, j, b) && b !in PageAt(h, j, l).free;
      var m := if j == i then l + 1 else l;
      assert IsPage(g, j, m) && PageAt(g, j, m) == PageAt(h, j, l);
    }
    if Live(g, b, j) {
      var l: nat :| IsPage(g, j, l) && IsSlot(PageAt(g, j, l).at, j, b) && b !in PageAt(g, j, l).free;
      assert if j == i then l > 0 && PageAt(g, i, l) == PageAt(h, i, l - 1) else PageAt(g, j, l) == PageAt(h, j, l);
    }
  }

  /** A page all of whose slots are free has no live object. */
  lemma NoneLive(p: Page, i: nat)
    requires i < |SIZES| && PageOk(p, i) && |p.free| == Slots(i)
    ensures forall x | IsSlot(p.at, i, x) :: x in p.free
  {
    LiveCount(p, i);
    assert LiveOn(p, i) == {};
    assert forall x | IsSlot(p.at, i, x) :: x in SlotSet(p.at, i) && x !in LiveOn(p, i);
  }

  lemma ClosedLive(h: Heap, descs: nat, i: nat, k: nat, b: nat, j: nat)
    requires Ok(h, descs) && IsPage(h, i, k) && |PageAt(h, i, k).free| == Slots(i)
    ensures Live(Closed(h, i, k), b, j) <==> Live(h, b, j)
  {
    var g, p := Closed(h, i, k), PageAt(h, i, k);
    assert PageOk(p, i);
    NoneLive(p, i);
    hide Ok, PageOk, Closed, Slots, IsSlot;
    if Live(h, b, j) {
      var l: nat :| IsPage(h, j, l) && IsSlot(PageAt(h, j, l).at, j, b) && b !in PageAt(h, j, l).free;
      var m := if j == i && l > k then l - 1 else l;
      assert IsPage(g, j, m) && PageAt(g, j, m) == PageAt(h, j, l);
    }
    if Live(g, b, j) {
      var l: nat :| IsPage(g, j, l) && IsSlot(PageAt(g, j, l).at, j, b) && b !in PageAt(g, j, l).free;
      var m := if j == i && l >= k then l + 1 else l;
      assert IsPage(h, j, m) && PageAt(h, j, m) == PageAt(g, j, l);
    }
  }
}
