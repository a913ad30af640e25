/** Every indivisible change of the pager keeps the invariant of Paging.  The lemmas below first
    describe what one write to physical memory does to the words the MMU reads, then count
    references, then go through the changes one by one. */
module PagingSteps {
  import opened Options
  import opened Paging

  /** The part of the invariant that keeps directory, tables and pages apart in physical memory. */
  ghost predicate Apart(s: State) {
    && KernelMap(s)
    && (forall d | IsDir(d) && HasTable(s, d) :: LOW <= Dir(s, d).frame < NFRAMES)
    && (forall d, e | IsDir(d) && IsDir(e) && HasTable(s, d) && HasTable(s, e) && d != e ::
          Dir(s, d).frame != Dir(s, e).frame)
  }

  lemma InvApart(s: State)
    requires Inv(s)
    ensures Apart(s)
  {}

  // ---- One write to physical memory ----

  lemma EntryWritten(s: State, x: Slot, w: Word)
    requires Apart(s) && IsSlot(x) && HasTable(s, x.d)
    ensures forall d :: Dir(SetEntry(s, x, w), d) == Dir(s, d)
    ensures forall y | IsSource(y) ::
              Entry(SetEntry(s, x, w), y) == if y == x then w else Entry(s, y)
    ensures forall f | f != Dir(s, x.d).frame :: Frame(SetEntry(s, x, w), f) == Frame(s, f)
    ensures Apart(SetEntry(s, x, w))
  {
    var t := SetEntry(s, x, w);
    forall y | IsSource(y)
      ensures Entry(t, y) == if y == x then w else Entry(s, y)
    {
      if y.d != x.d && HasTable(s, y.d) {
        assert Dir(s, y.d).frame != Dir(s, x.d).frame;
      }
    }
    forall j: nat | j < 160 ensures Entry(t, Slot(0, j)).frame < LOW {
      assert IsSource(Slot(0, j));
    }
  }

  lemma DirWritten(s: State, d: nat, w: Word)
    requires Apart(s) && IsDir(d)
    ensures forall e :: Dir(SetDir(s, d, w), e) == if e == d then w else Dir(s, e)
    ensures forall y | IsSource(y) && y.d != d :: Entry(SetDir(s, d, w), y) == Entry(s, y)
    ensures forall f | f != 0 :: Frame(SetDir(s, d, w), f) == Frame(s, f)
    ensures KernelMap(SetDir(s, d, w))
  {
    var t := SetDir(s, d, w);
    forall j: nat | j < 160 ensures Entry(t, Slot(0, j)).frame < LOW {
      assert IsSource(Slot(0, j));
      assert Entry(t, Slot(0, j)) == Entry(s, Slot(0, j));
    }
  }

  lemma FrameWritten(s: State, f: nat, p: Page)
    requires Apart(s) && LOW <= f < NFRAMES
    requires forall d | IsDir(d) && HasTable(s, d) :: Dir(s, d).frame != f
    ensures forall d :: Dir(SetFrame(s, f, p), d) == Dir(s, d)
    ensures forall y | IsSource(y) :: Entry(SetFrame(s, f, p), y) == Entry(s, y)
    ensures forall g :: Frame(SetFrame(s, f, p), g) == if g == f then p else Frame(s, g)
    ensures Apart(SetFrame(s, f, p))
  {
    var t := SetFrame(s, f, p);
    forall j: nat | j < 160 ensures Entry(t, Slot(0, j)).frame < LOW {
      assert IsSource(Slot(0, j));
      assert Entry(t, Slot(0, j)) == Entry(s, Slot(0, j));
    }
  }

  // ---- Counting references ----

  function B(b: bool): nat { if b then 1 else 0 }

  /** x refers to f */
  predicate Refers(s: State, x: Slot, f: nat) { Where(s, x) == Some(f) }

  /** f is the page table of d */
  predicate Tables(s: State, d: nat, f: nat) { HasTable(s, d) && Dir(s, d).frame == f }

  lemma PteRefsSame(s: State, t: State, f: nat)
    requires forall y | IsSlot(y) :: Where(t, y) == Where(s, y)
    ensures PteRefs(t, f) == PteRefs(s, f)
  {
    forall y ensures y in AllSlots() <==> IsSlot(y) { SlotsAll(y); }
  }

  lemma PteRefsAfter(s: State, t: State, x: Slot, f: nat)
    requires IsSlot(x)
    requires forall y | IsSlot(y) && y != x :: Where(t, y) == Where(s, y)
    ensures |PteRefs(t, f)| == |PteRefs(s, f)| - B(Refers(s, x, f)) + B(Refers(t, x, f))
  {
    var was, now := PteRefs(s, f), PteRefs(t, f);
    forall y ensures y in was <==> IsSlot(y) && Refers(s, y, f) { PteRefsAre(s, f, y); }
    forall y ensures y in now <==> IsSlot(y) && Refers(t, y, f) { PteRefsAre(t, f, y); }
    SetAfter(was, now, x);
  }

  lemma PteRefsAre(s: State, f: nat, y: Slot)
    ensures y in PteRefs(s, f) <==> IsSlot(y) && Refers(s, y, f)
  {
    SlotsAll(y);
  }

  lemma DirRefsSame(s: State, t: State, f: nat)
    requires forall e | IsDir(e) :: Dir(t, e) == Dir(s, e)
    ensures DirRefs(t, f) == DirRefs(s, f)
  {}

  lemma DirRefsAre(s: State, f: nat, e: nat)
    ensures e in DirRefs(s, f) <==> IsDir(e) && Tables(s, e, f)
  {}

  lemma DirRefsAfter(s: State, t: State, d: nat, f: nat)
    requires IsDir(d)
    requires forall e | IsDir(e) && e != d :: Dir(t, e) == Dir(s, e)
    ensures |DirRefs(t, f)| == |DirRefs(s, f)| - B(Tables(s, d, f)) + B(Tables(t, d, f))
  {
    var was, now := DirRefs(s, f), DirRefs(t, f);
    forall e ensures e in was <==> IsDir(e) && Tables(s, e, f) { DirRefsAre(s, f, e); }
    forall e ensures e in now <==> IsDir(e) && Tables(t, e, f) { DirRefsAre(t, f, e); }
    SetAfter(was, now, d);
  }

  lemma SetAfter<T>(was: set<T>, now: set<T>, d: T)
    requires forall e | e != d :: e in now <==> e in was
    ensures |now| == |was| - B(d in was) + B(d in now)
  {
    var rest := was - {d};
    assert now - {d} == rest;
    assert was == if d in was then rest + {d} else rest;
    assert now == if d in now then rest + {d} else rest;
  }

  /** The counts stay exact when a change to them matches what x refers to and who holds what. */
  lemma CountsAfterPte(s: State, t: State, x: Slot)
    requires IsSlot(x) && CountsExact(s) && s.start == t.start && s.high == t.high
    requires forall y | IsSlot(y) && y != x :: Where(t, y) == Where(s, y)
    requires forall e | IsDir(e) :: Dir(t, e) == Dir(s, e)
    requires forall g | LOW <= g < NFRAMES ::
               Count(t, g) + B(Refers(s, x, g)) + B(g in s.held) == Count(s, g) + B(Refers(t, x, g)) + B(g in t.held)
    ensures CountsExact(t)
  {
    forall g | LOW <= g < NFRAMES ensures CountExact(t, g) {
      PteRefsAfter(s, t, x, g);
      DirRefsSame(s, t, g);
      assert CountExact(s, g);
    }
  }

  /** The same for a change to directory entry d. */
  lemma CountsAfterDir(s: State, t: State, d: nat)
    requires IsDir(d) && CountsExact(s) && s.start == t.start && s.high == t.high
    requires forall y | IsSlot(y) :: Where(t, y) == Where(s, y)
    requires forall e | IsDir(e) && e != d :: Dir(t, e) == Dir(s, e)
    requires forall g | LOW <= g < NFRAMES ::
               Count(t, g) + B(Tables(s, d, g)) + B(g in s.held) == Count(s, g) + B(Tables(t, d, g)) + B(g in t.held)
    ensures CountsExact(t)
  {
    forall g | LOW <= g < NFRAMES ensures CountExact(t, g) {
      PteRefsSame(s, t, g);
      DirRefsAfter(s, t, d, g);
      assert CountExact(s, g);
    }
  }

  /** A frame whose count is 0 is named by nobody. */
  lemma FreeUnnamed(s: State, f: nat)
    requires Inv(s) && LOW <= f < NFRAMES && Count(s, f) == 0
    ensures Managed(s, f) && f !in s.held
    ensures forall x | IsSlot(x) :: Where(s, x) != Some(f)
    ensures forall d | IsDir(d) && HasTable(s, d) :: Dir(s, d).frame != f
  {
    assert CountExact(s, f);
    forall x | IsSlot(x) ensures Where(s, x) != Some(f) {
      SlotsAll(x);
      assert x !in PteRefs(s, f);
    }
    forall d | IsDir(d) && HasTable(s, d) ensures Dir(s, d).frame != f {
      assert d !in DirRefs(s, f);
    }
  }

  /** A mapped frame has a positive count. */
  lemma MappedCounted(s: State, x: Slot)
    requires Inv(s) && IsSlot(x) && Entry(s, x).present && Entry(s, x).frame >= LOW
    ensures Managed(s, Entry(s, x).frame) && Count(s, Entry(s, x).frame) > 0
  {
    var f := Entry(s, x).frame;
    SlotsAll(x);
    assert x in PteRefs(s, f);
    assert CountExact(s, f);
  }

  lemma TableCounted(s: State, d: nat)
    requires Inv(s) && IsDir(d) && HasTable(s, d)
    ensures Managed(s, Dir(s, d).frame) && Count(s, Dir(s, d).frame) > 0
  {
    var f := Dir(s, d).frame;
    assert d in DirRefs(s, f);
    assert CountExact(s, f);
  }

  lemma HeldCounted(s: State, f: nat)
    requires Inv(s) && f in s.held
    ensures Managed(s, f) && Count(s, f) > 0
    ensures forall x | IsSlot(x) :: Where(s, x) != Some(f)
    ensures forall d | IsDir(d) && HasTable(s, d) :: Dir(s, d).frame != f
  {
    assert Managed(s, f);
    assert CountExact(s, f);
  }

  // ---- The changes, one by one ----

  /** f is neither a page table nor a mapped page */
  ghost predicate Unnamed(s: State, f: nat) {
    && (forall x | IsSlot(x) :: Where(s, x) != Some(f))
    && (forall d | IsDir(d) && HasTable(s, d) :: Dir(s, d).frame != f)
  }

  /** The MMU reads the same words in s and t. */
  ghost predicate SameTables(s: State, t: State) {
    && s.start == t.start && s.high == t.high
    && (forall d :: Dir(t, d) == Dir(s, d))
    && (forall x | IsSource(x) :: Entry(t, x) == Entry(s, x))
  }

  lemma HoldersChange(s: State, t: State)
    requires Inv(s) && SameTables(s, t)
    requires forall f | f in t.held :: f in s.held || (Managed(s, f) && Unnamed(s, f))
    requires forall g | LOW <= g < NFRAMES :: Count(t, g) + B(g in s.held) == Count(s, g) + B(g in t.held)
    ensures Inv(t)
  {
    CountsAfterDir(s, t, AREA);
    forall j: nat | j < 160 ensures Entry(t, Slot(0, j)).frame < LOW {}
  }

  lemma GrabKeeps(s: State, f: nat)
    requires Inv(s) && Enabled(s, Grab(f))
    ensures var t := Next(s, Grab(f)); Inv(t) && SameTables(s, t)
    ensures var t := Next(s, Grab(f)); forall x | IsSlot(x) :: ReadPage(t, x) == ReadPage(s, x)
  {
    hide Inv;
    InvApart(s);
    FreeUnnamed(s, f);
    var u := SetFrame(s, f, ZeroPage());
    FrameWritten(s, f, ZeroPage());
    var t := Take(SetCount(u, f, 1), f);
    assert t == Next(s, Grab(f));
    assert SameTables(u, t) by {}
    HoldersChange(s, t);
  }

  lemma ReleaseKeeps(s: State, f: nat)
    requires Inv(s) && Enabled(s, Release(f))
    ensures var t := Next(s, Release(f)); Inv(t) && SameTables(s, t)
    ensures var t := Next(s, Release(f)); forall x | IsSlot(x) :: ReadPage(t, x) == ReadPage(s, x)
  {
    HeldCounted(s, f);
    var t := Next(s, Release(f));
    assert SameTables(s, t);
    HoldersChange(s, t);
  }

  lemma FillKeeps(s: State, f: nat, p: Page)
    requires Inv(s) && Enabled(s, Fill(f, p))
    ensures var t := Next(s, Fill(f, p)); Inv(t) && SameTables(s, t)
    ensures var t := Next(s, Fill(f, p)); forall x | IsSlot(x) :: ReadPage(t, x) == ReadPage(s, x)
  {
    HeldCounted(s, f);
    FrameWritten(s, f, p);
    HoldersChange(s, SetFrame(s, f, p));
  }

  lemma MakeTableKeeps(s: State, d: nat, f: nat)
    requires Inv(s) && Enabled(s, MakeTable(d, f))
    ensures var t := Next(s, MakeTable(d, f)); Inv(t) && HasTable(t, d) && forall e | e != d :: Dir(t, e) == Dir(s, e)
    ensures var t := Next(s, MakeTable(d, f)); forall x | IsSource(x) ::
            Entry(t, x) == if x.d == d then Frame(s, f)[x.j] else Entry(s, x)
    ensures var t := Next(s, MakeTable(d, f)); forall x | IsSlot(x) :: ReadPage(t, x) == ReadPage(s, x)
  {
    hide Inv;
    InvApart(s);
    HeldCounted(s, f);
    var u := SetDir(s, d, Or7(f));
    var t := Give(u, f);
    DirWritten(s, d, Or7(f));
    TableChange(s, t, d);
  }

  lemma DropTableKeeps(s: State, d: nat)
    requires Inv(s) && Enabled(s, DropTable(d))
    ensures var t := Next(s, DropTable(d)); Inv(t) && !HasTable(t, d) && forall e | e != d :: Dir(t, e) == Dir(s, e)
    ensures var t := Next(s, DropTable(d)); forall x | IsSource(x) && x.d != d :: Entry(t, x) == Entry(s, x)
    ensures var t := Next(s, DropTable(d)); forall x | IsSlot(x) :: ReadPage(t, x) == ReadPage(s, x)
  {
    hide Inv;
    InvApart(s);
    var f := Dir(s, d).frame;
    TableCounted(s, d);
    var u := SetDir(s, d, ZERO);
    DirWritten(s, d, ZERO);
    var t := SetCount(u, f, Count(s, f) - 1);
    assert t == Next(s, DropTable(d));
    forall x | IsSource(x) && x.d != d ensures Entry(t, x) == Entry(s, x) { assert Entry(u, x) == Entry(s, x); }
    TableChange(s, t, d);
  }

  /** Directory entry d starts or stops naming an empty table. */
  lemma TableChange(s: State, t: State, d: nat)
    requires Inv(s) && IsDir(d) && s.start == t.start && s.high == t.high && KernelMap(t)
    requires forall e | e != d :: Dir(t, e) == Dir(s, e)
    requires forall x | IsSource(x) ::
               if x.d == d then !Entry(t, x).present && !Entry(s, x).present else Entry(t, x) == Entry(s, x)
    requires HasTable(t, d) ==> Dir(t, d).frame in s.held && Dir(t, d).frame !in t.held && Unnamed(s, Dir(t, d).frame)
    requires t.held <= s.held
    requires forall g | LOW <= g < NFRAMES ::
               Count(t, g) + B(Tables(s, d, g)) + B(g in s.held) == Count(s, g) + B(Tables(t, d, g)) + B(g in t.held)
    ensures Inv(t)
  {
    CountsAfterDir(s, t, d);
  }

  /** Only entry x differs. */
  ghost predicate OnlyEntry(s: State, t: State, x: Slot, w: Word) {
    && s.start == t.start && s.high == t.high && KernelMap(t)
    && (forall e :: Dir(t, e) == Dir(s, e))
    && (forall y | IsSource(y) :: Entry(t, y) == if y == x then w else Entry(s, y))
  }

  ghost predicate CountsMatch(s: State, t: State, x: Slot) {
    forall g | LOW <= g < NFRAMES ::
      Count(t, g) + B(Refers(s, x, g)) + B(g in s.held) == Count(s, g) + B(Refers(t, x, g)) + B(g in t.held)
  }

  lemma SetEntryOnly(s: State, x: Slot, w: Word)
    requires Apart(s) && IsSlot(x) && HasTable(s, x.d)
    ensures OnlyEntry(s, SetEntry(s, x, w), x, w)
    ensures Apart(SetEntry(s, x, w))
    ensures forall f | f != Dir(s, x.d).frame :: Frame(SetEntry(s, x, w), f) == Frame(s, f)
  {
    EntryWritten(s, x, w);
  }

  /** Counters and holders do not matter to what the MMU reads. */
  lemma OnlyEntryUnder(s: State, u: State, t: State, x: Slot, w: Word)
    requires OnlyEntry(s, u, x, w) && u.mem == t.mem && u.start == t.start && u.high == t.high
    ensures OnlyEntry(s, t, x, w)
  {
    forall e ensures Dir(t, e) == Dir(u, e) {}
    forall y ensures Entry(t, y) == Entry(u, y) {}
  }

  /** The frame written into an entry is the kernel's low memory or owned by no other role. */
  ghost predicate MayPoint(s: State, t: State, w: Word) {
    w.present && w.frame >= LOW ==>
      && Managed(s, w.frame) && w.frame !in t.held
      && (forall d | IsDir(d) && HasTable(s, d) :: Dir(s, d).frame != w.frame)
  }

  /** The other mappings of that frame are read-only like this one, and at the same offset. */
  ghost predicate MayShare(s: State, x: Slot, w: Word) {
    w.present ==>
      && (w.rw ==> w.frame >= LOW)
      && (forall y | IsSlot(y) && y != x && Entry(s, y).present && Entry(s, y).frame == w.frame ::
            !w.rw && !Entry(s, y).rw && (w.frame >= LOW ==> x.d % AREA == y.d % AREA && x.j == y.j))
  }

  lemma OwnersAfter(s: State, t: State, x: Slot, w: Word)
    requires Inv(s) && IsSlot(x) && OnlyEntry(s, t, x, w) && t.held <= s.held && MayPoint(s, t, w)
    ensures TablesPrivate(t) && TargetsOwned(t)
  {}

  lemma SharersAfter(s: State, t: State, x: Slot, w: Word)
    requires Inv(s) && IsSlot(x) && OnlyEntry(s, t, x, w) && MayShare(s, x, w)
    ensures WritableAlone(t) && SameOffset(t)
  {}

  /** Entry x is rewritten. */
  lemma EntryChange(s: State, t: State, x: Slot, w: Word)
    requires Inv(s) && IsSlot(x) && OnlyEntry(s, t, x, w) && t.held <= s.held && CountsMatch(s, t, x)
    requires MayPoint(s, t, w) && MayShare(s, x, w)
    ensures Inv(t)
  {
    OwnersAfter(s, t, x, w);
    SharersAfter(s, t, x, w);
    assert CountsExact(t) by { CountsAfterPte(s, t, x); }
  }

  lemma UnmapKeeps(s: State, x: Slot)
    requires Inv(s) && Enabled(s, Unmap(x))
    ensures var t := Next(s, Unmap(x)); Inv(t) && OnlyEntry(s, t, x, ZERO)
    ensures var t := Next(s, Unmap(x)); forall y | IsSlot(y) ::
            ReadPage(t, y) == if y == x then Absent else ReadPage(s, y)
  {
    var w := Entry(s, x);
    var u := SetEntry(s, x, ZERO);
    SetEntryOnly(s, x, ZERO);
    var t := if w.present then Uncount(u, w.frame) else u;
    assert t == Next(s, Unmap(x));
    OnlyEntryUnder(s, u, t, x, ZERO);
    UnmapMatches(s, t, x);
    EntryChange(s, t, x, ZERO);
    ReadsAfter(s, t, x, ZERO, 0);
  }

  lemma UnmapMatches(s: State, t: State, x: Slot)
    requires Inv(s) && IsSlot(x) && !Entry(t, x).present && t.held == s.held
    requires t.memMap == (if Entry(s, x).present then Uncount(s, Entry(s, x).frame) else s).memMap
    ensures CountsMatch(s, t, x)
  {
    if Entry(s, x).present && Entry(s, x).frame >= LOW { MappedCounted(s, x); }
  }

  /** Rewriting entry x and filling frame f, which nothing else maps, changes what x reads only. */
  lemma ReadsAfter(s: State, t: State, x: Slot, w: Word, f: nat)
    requires Inv(s) && IsSlot(x) && HasTable(s, x.d) && OnlyEntry(s, t, x, w)
    requires forall g | g != Dir(s, x.d).frame && g != f :: Frame(t, g) == Frame(s, g)
    requires forall y | IsSlot(y) && y != x :: Where(s, y) != Some(f) || f < LOW
    ensures forall y | IsSlot(y) && y != x :: ReadPage(t, y) == ReadPage(s, y)
  {}

  lemma MapHeldKeeps(s: State, x: Slot, f: nat)
    requires Inv(s) && Enabled(s, MapHeld(x, f))
    ensures var t := Next(s, MapHeld(x, f)); Inv(t) && OnlyEntry(s, t, x, Or7(f))
    ensures var t := Next(s, MapHeld(x, f)); forall y | IsSlot(y) ::
            ReadPage(t, y) == if y == x then Own(Frame(s, f)) else ReadPage(s, y)
  {
    hide Inv;
    InvApart(s);
    HeldCounted(s, f);
    var u := SetEntry(s, x, Or7(f));
    SetEntryOnly(s, x, Or7(f));
    var t := Give(u, f);
    OnlyEntryUnder(s, u, t, x, Or7(f));
    assert CountsMatch(s, t, x);
    EntryChange(s, t, x, Or7(f));
    ReadsAfter(s, t, x, Or7(f), 0);
  }

  /** Over an entry that is present the same store loses a reference: the frame that was there stays counted.
      Only a frame below LOW_MEM, which is not counted, may be covered. */
  lemma MapHeldExact(s: State, x: Slot, f: nat)
    requires Inv(s) && IsSlot(x) && HasTable(s, x.d) && f in s.held
    ensures Inv(Next(s, MapHeld(x, f))) <==> !Entry(s, x).present || Entry(s, x).frame < LOW
  {
    InvApart(s);
    HeldCounted(s, f);
    var u, t, g := SetEntry(s, x, Or7(f)), Next(s, MapHeld(x, f)), Entry(s, x).frame;
    SetEntryOnly(s, x, Or7(f));
    OnlyEntryUnder(s, u, t, x, Or7(f));
    if !Entry(s, x).present || g < LOW {
      hide Inv;
      assert CountsMatch(s, t, x);
      EntryChange(s, t, x, Or7(f));
    } else {
      MappedCounted(s, x);
      PteRefsAfter(s, t, x, g);
      DirRefsSame(s, t, g);
      assert CountExact(s, g) && !CountExact(t, g);
    }
  }

  /** With a count of one, x is the only mapping of its frame. */
  lemma CountOneAlone(s: State, x: Slot, y: Slot)
    requires Inv(s) && IsSlot(x) && IsSlot(y) && Entry(s, x).present && Entry(s, y).present
    requires Entry(s, x).frame == Entry(s, y).frame && LOW <= Entry(s, x).frame < NFRAMES
    requires Count(s, Entry(s, x).frame) == 1
    ensures x == y
  {
    var f := Entry(s, x).frame;
    SlotsAll(x);
    SlotsAll(y);
    assert CountExact(s, f);
    SubsetSize({x, y}, PteRefs(s, f));
  }

  lemma SubsetSize<T>(a: set<T>, b: set<T>)
    requires a <= b
    ensures |a| <= |b|
  {
    assert b == a + (b - a);
  }

  lemma UnprotectKeeps(s: State, x: Slot)
    requires Inv(s) && Enabled(s, Unprotect(x))
    ensures var t := Next(s, Unprotect(x)); Inv(t) && OnlyEntry(s, t, x, Entry(s, x).(rw := true))
    ensures var t := Next(s, Unprotect(x)); forall y | IsSlot(y) :: ReadPage(t, y) == ReadPage(s, y)
  {
    var w := Entry(s, x).(rw := true);
    var t := SetEntry(s, x, w);
    SetEntryOnly(s, x, w);
    forall y | IsSlot(y) && y != x && Entry(s, y).present ensures Entry(s, y).frame != w.frame {
      if Entry(s, y).frame == w.frame { CountOneAlone(s, x, y); }
    }
    EntryChange(s, t, x, w);
  }

  lemma CopyOutKeeps(s: State, x: Slot, f: nat)
    requires Inv(s) && Enabled(s, CopyOut(x, f))
    ensures var t := Next(s, CopyOut(x, f)); Inv(t) && OnlyEntry(s, t, x, Or7(f))
    ensures var t := Next(s, CopyOut(x, f)); forall y | IsSlot(y) ::
              ReadPage(t, y) == if y == x then Own(Frame(s, Entry(s, x).frame)) else ReadPage(s, y)
  {
    hide Inv;
    InvApart(s);
    HeldCounted(s, f);
    var g := Entry(s, x).frame;
    if g >= LOW { MappedCounted(s, x); }
    var p := Frame(s, g);
    var u := SetEntry(s, x, Or7(f));
    SetEntryOnly(s, x, Or7(f));
    var v := SetFrame(u, f, p);
    CopyOutMemory(s, x, f, u, v, p);
    var t := Give(Uncount(v, g), f);
    assert t == Next(s, CopyOut(x, f));
    OnlyEntryUnder(s, v, t, x, Or7(f));
    assert MayPoint(s, t, Or7(f));
    assert CountsMatch(s, t, x);
    EntryChange(s, t, x, Or7(f));
    CopyOutReads(s, v, t, x, f, p);
  }

  lemma CopyOutMemory(s: State, x: Slot, f: nat, u: State, v: State, p: Page)
    requires Inv(s) && IsSlot(x) && LOW <= f < NFRAMES && OnlyEntry(s, u, x, Or7(f)) && Apart(u)
    requires forall d | IsDir(d) && HasTable(s, d) :: Dir(s, d).frame != f
    requires v == SetFrame(u, f, p)
    ensures OnlyEntry(s, v, x, Or7(f))
    ensures forall g :: Frame(v, g) == if g == f then p else Frame(u, g)
  {
    FrameWritten(u, f, p);
    forall y | IsSource(y) ensures Entry(v, y) == if y == x then Or7(f) else Entry(s, y) {}
  }

  lemma CopyOutReads(s: State, v: State, t: State, x: Slot, f: nat, p: Page)
    requires Inv(s) && IsSlot(x) && f >= LOW && OnlyEntry(s, t, x, Or7(f)) && v.mem == t.mem
    requires HasTable(s, x.d) && f in s.held
    requires forall g | g != Dir(s, x.d).frame :: Frame(v, g) == if g == f then p else Frame(s, g)
    ensures forall y | IsSlot(y) :: ReadPage(t, y) == if y == x then Own(p) else ReadPage(s, y)
  {
    HeldCounted(s, f);
    forall y | IsSlot(y) ensures ReadPage(t, y) == if y == x then Own(p) else ReadPage(s, y) {
      var g := Entry(t, y).frame;
      assert Frame(t, g) == Frame(v, g);
    }
  }

  lemma StoreKeeps(s: State, x: Slot, off: nat, w: Word)
    requires Inv(s) && Enabled(s, Store(x, off, w))
    ensures var t := Next(s, Store(x, off, w)); Inv(t) && OnlyEntry(s, t, x, Entry(s, x).(dirty := true))
    ensures var t := Next(s, Store(x, off, w)); forall y | IsSlot(y) ::
              ReadPage(t, y) == if y == x then Own(Frame(s, Entry(s, x).frame)[off := w]) else ReadPage(s, y)
  {
    hide Inv;
    var e := Entry(s, x).(dirty := true);
    var g := e.frame;
    var p := Frame(s, g)[off := w];
    WritableApart(s, x);
    var u := SetEntry(s, x, e);
    SetEntryOnly(s, x, e);
    var t := SetFrame(u, g, p);
    FrameWritten(u, g, p);
    assert OnlyEntry(s, t, x, e);
    assert CountsMatch(s, t, x);
    EntryChange(s, t, x, e);
    ReadsAfter(s, t, x, e, g);
  }

  /** The page behind a writable entry is counted, no page table, and nobody else's. */
  lemma WritableApart(s: State, x: Slot)
    requires Inv(s) && IsSlot(x) && Entry(s, x).present && Entry(s, x).rw
    ensures Apart(s) && LOW <= Entry(s, x).frame < NFRAMES
    ensures forall y | IsSlot(y) && y != x :: Where(s, y) != Some(Entry(s, x).frame)
    ensures forall d | IsDir(d) && HasTable(s, d) :: Dir(s, d).frame != Entry(s, x).frame
    ensures var e := Entry(s, x).(dirty := true); MayPoint(s, s, e) && MayShare(s, x, e)
  {}

  /** Both entries end up read-only, so neither task can write the page the other reads. */
  lemma ShareKeeps(s: State, x: Slot, y: Slot)
    requires Inv(s) && Enabled(s, Share(x, y))
    ensures var t := Next(s, Share(x, y)); Inv(t) && forall d :: Dir(t, d) == Dir(s, d)
    ensures var t := Next(s, Share(x, y)); var w := ReadOnly(Entry(s, x));
            forall z | IsSource(z) :: Entry(t, z) == if z == y || (z == x && w.frame >= LOW) then w else Entry(s, z)
    ensures var t := Next(s, Share(x, y)); forall z | IsSlot(z) ::
              ReadPage(t, z) == if z == y then ReadPage(s, x) else ReadPage(s, z)
  {
    if Entry(s, x).frame < LOW {
      ShareLowKeeps(s, x, y);
    } else {
      ShareCountedKeeps(s, x, y);
    }
  }

  lemma ShareLowKeeps(s: State, x: Slot, y: Slot)
    requires Inv(s) && Enabled(s, Share(x, y)) && Entry(s, x).frame < LOW
    ensures var t := Next(s, Share(x, y)); Inv(t) && OnlyEntry(s, t, y, ReadOnly(Entry(s, x)))
    ensures var t := Next(s, Share(x, y)); forall z | IsSlot(z) ::
              ReadPage(t, z) == if z == y then ReadPage(s, x) else ReadPage(s, z)
  {
    var w := ReadOnly(Entry(s, x));
    var t := SetEntry(s, y, w);
    SetEntryOnly(s, y, w);
    EntryChange(s, t, y, w);
  }

  /** Step 1 of sharing a counted page: the source entry loses its write bit. */
  lemma ProtectKeeps(s: State, x: Slot)
    requires Inv(s) && IsSlot(x) && Entry(s, x).present
    ensures var t := SetEntry(s, x, ReadOnly(Entry(s, x))); Inv(t) && OnlyEntry(s, t, x, ReadOnly(Entry(s, x)))
    ensures var t := SetEntry(s, x, ReadOnly(Entry(s, x))); forall z | IsSlot(z) :: ReadPage(t, z) == ReadPage(s, z)
  {
    var w := ReadOnly(Entry(s, x));
    SetEntryOnly(s, x, w);
    EntryChange(s, SetEntry(s, x, w), x, w);
  }

  /** Step 2: the second reference, counted. */
  lemma SecondReferenceKeeps(s: State, x: Slot, y: Slot)
    requires Inv(s) && Enabled(s, Share(x, y)) && IsSlot(x) && Entry(s, x).frame >= LOW && !Entry(s, x).rw
    ensures Managed(s, Entry(s, x).frame)
    ensures var f := Entry(s, x).frame; var t := SetCount(SetEntry(s, y, Entry(s, x)), f, Count(s, f) + 1);
            && Inv(t) && OnlyEntry(s, t, y, Entry(s, x))
            && forall z | IsSlot(z) :: ReadPage(t, z) == if z == y then ReadPage(s, x) else ReadPage(s, z)
  {
    MappedCounted(s, x);
    var w := Entry(s, x);
    var u := SetEntry(s, y, w);
    SetEntryOnly(s, y, w);
    var t := SetCount(u, w.frame, Count(s, w.frame) + 1);
    OnlyEntryUnder(s, u, t, y, w);
    SecondReferenceFits(s, t, x, y);
    EntryChange(s, t, y, w);
    SecondReferenceReads(s, t, x, y);
  }

  lemma SecondReferenceFits(s: State, t: State, x: Slot, y: Slot)
    requires Inv(s) && Enabled(s, Share(x, y)) && IsSlot(x) && Managed(s, Entry(s, x).frame) && !Entry(s, x).rw
    requires Entry(t, y) == Entry(s, x) && t.held == s.held
    requires t.memMap == SetCount(s, Entry(s, x).frame, Count(s, Entry(s, x).frame) + 1).memMap
    ensures CountsMatch(s, t, y) && MayPoint(s, t, Entry(s, x)) && MayShare(s, y, Entry(s, x))
  {}

  lemma SecondReferenceReads(s: State, t: State, x: Slot, y: Slot)
    requires Inv(s) && Enabled(s, Share(x, y)) && IsSlot(x) && Entry(s, x).frame >= LOW
             && OnlyEntry(s, t, y, Entry(s, x))
    requires forall f | f != Dir(s, y.d).frame :: Frame(t, f) == Frame(s, f)
    ensures forall z | IsSlot(z) :: ReadPage(t, z) == if z == y then ReadPage(s, x) else ReadPage(s, z)
  {}

  lemma ShareOrder(s: State, x: Slot, y: Slot)
    requires Inv(s) && Enabled(s, Share(x, y)) && Entry(s, x).frame >= LOW && Managed(s, Entry(s, x).frame)
    ensures var w := ReadOnly(Entry(s, x));
            Next(s, Share(x, y)) == SetCount(SetEntry(SetEntry(s, x, w), y, w), w.frame, Count(s, w.frame) + 1)
  {
    SetEntryCommutes(s, x, y, ReadOnly(Entry(s, x)));
  }

  lemma ShareReady(s: State, u: State, x: Slot, y: Slot)
    requires Enabled(s, Share(x, y)) && IsSlot(x) && OnlyEntry(s, u, x, ReadOnly(Entry(s, x)))
    ensures Enabled(u, Share(x, y))
  {}

  lemma ShareCountedKeeps(s: State, x: Slot, y: Slot)
    requires Inv(s) && Enabled(s, Share(x, y)) && Entry(s, x).frame >= LOW
    ensures var t := Next(s, Share(x, y)); Inv(t) && forall d :: Dir(t, d) == Dir(s, d)
    ensures var t := Next(s, Share(x, y)); var w := ReadOnly(Entry(s, x));
            forall z | IsSource(z) :: Entry(t, z) == if z == y || z == x then w else Entry(s, z)
    ensures var t := Next(s, Share(x, y)); forall z | IsSlot(z) ::
              ReadPage(t, z) == if z == y then ReadPage(s, x) else ReadPage(s, z)
  {
    MappedCounted(s, x);
    var w := ReadOnly(Entry(s, x));
    var u := SetEntry(s, x, w);
    ProtectKeeps(s, x);
    ShareReady(s, u, x, y);
    ProtectedFacts(s, u, x, w);
    SecondReferenceKeeps(u, x, y);
    var t := SetCount(SetEntry(u, y, w), w.frame, Count(u, w.frame) + 1);
    ShareOrder(s, x, y);
    ShareReads(s, u, t, x, y, w);
  }

  lemma ProtectedFacts(s: State, u: State, x: Slot, w: Word)
    requires IsSlot(x) && OnlyEntry(s, u, x, w) && w == ReadOnly(Entry(s, x)) && w.frame >= LOW
    ensures Entry(u, x) == w && w.frame >= LOW && !w.rw
  {}

  lemma ShareReads(s: State, u: State, t: State, x: Slot, y: Slot, w: Word)
    requires IsSlot(x) && IsSlot(y) && OnlyEntry(s, u, x, w) && OnlyEntry(u, t, y, w)
    requires forall z | IsSlot(z) :: ReadPage(u, z) == ReadPage(s, z)
    requires forall z | IsSlot(z) :: ReadPage(t, z) == if z == y then ReadPage(u, x) else ReadPage(u, z)
    ensures forall d :: Dir(t, d) == Dir(s, d)
    ensures forall z | IsSource(z) :: Entry(t, z) == if z == y || z == x then w else Entry(s, z)
    ensures forall z | IsSlot(z) :: ReadPage(t, z) == if z == y then ReadPage(s, x) else ReadPage(s, z)
  {}

  lemma SetEntryCommutes(s: State, x: Slot, y: Slot, w: Word)
    requires Inv(s) && IsSlot(x) && IsSlot(y) && HasTable(s, x.d) && HasTable(s, y.d) && x != y
    ensures SetEntry(SetEntry(s, x, w), y, w) == SetEntry(SetEntry(s, y, w), x, w)
  {
    SetEntryOnly(s, x, w);
    SetEntryOnly(s, y, w);
    if x.d == y.d {
      var p := Frame(s, Dir(s, x.d).frame);
      assert p[x.j := w][y.j := w] == p[y.j := w][x.j := w];
    }
  }
}
