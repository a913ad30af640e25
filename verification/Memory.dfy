/** mm/memory.c and the memory half of kernel/fork.c: the methods work in place on mem_map and on
    physical memory.  Each returns, as a ghost, the run of indivisible changes it made. */
module MemoryManager {
  import opened Options
  import opened Paging
  import opened PagingRuns
  import opened PagingSteps

  const DIRSPAN := 0x40_0000       // bytes mapped by one directory entry
  const WORDS := 0x1_0000_0000     // addresses and sizes are 32-bit

  /** an unsigned char of mem_map */
  type Byte = b: nat | b < 256

  datatype ShareResult = Shared | Unshared | NoRoom | Twice

  datatype Outcome = Done | NoMemory | Panic

  /** ((x) + 0x3fffff) >> 22, in 32 bits */
  function Dirs(size: nat): nat { (size + (DIRSPAN - 1)) % WORDS / DIRSPAN }

  // ---- What the methods promise, on states ----

  /** Nothing changed for any page outside directory entries lo .. hi. */
  ghost predicate Outside(s: State, t: State, lo: nat, hi: nat) {
    && (forall d: nat | !(lo <= d < hi) :: Dir(t, d) == Dir(s, d))
    && (forall x | IsSource(x) && !(lo <= x.d < hi) :: Where(t, x) == Where(s, x) && ReadPage(t, x) == ReadPage(s, x))
  }

  /** Every change in es that a task could notice is to a page in directory entries lo .. hi. */
  predicate InRange(es: seq<Step>, lo: nat, hi: nat) {
    forall i | 0 <= i < |es| && Subject(es[i]).Some? :: lo <= Subject(es[i]).value.d < hi
  }

  ghost predicate Unmapped(s: State, lo: nat, hi: nat) {
    forall d | lo <= d < hi :: !HasTable(s, d)
  }

  /** Row d reads like the first m pages of row d + shift did in s, and has nothing behind them. */
  ghost predicate RowCopied(s: State, t: State, shift: int, d: nat, m: nat) {
    0 <= d + shift &&
    forall j: nat | j < NPTE :: ReadPage(t, Slot(d, j)) == if j < m then ReadPage(s, Slot(d + shift, j)) else Absent
  }

  /** The fork snapshot: rows lo .. hi are copies. */
  ghost predicate Copied(s: State, t: State, shift: int, lo: nat, hi: nat, m: nat) {
    forall d: nat | lo <= d < hi :: RowCopied(s, t, shift, d, m)
  }

  ghost predicate ReadsSame(s: State, t: State) {
    forall x | IsSlot(x) :: ReadPage(t, x) == ReadPage(s, x)
  }

  ghost predicate ReadsBut(s: State, t: State, x: Slot, v: View) {
    forall y | IsSlot(y) :: ReadPage(t, y) == if y == x then v else ReadPage(s, y)
  }

  /** Memory as head.s leaves it, before mem_init. */
  ghost function Booted(start: nat, high: nat, mem: seq<Page>): State
    requires |mem| == NFRAMES
  {
    State(start, high, seq(NFRAMES - LOW, _ => 0), mem, {})
  }

  lemma OutsideThen(s: State, t: State, u: State, lo: nat, hi: nat, lo2: nat, hi2: nat)
    requires Outside(s, t, lo, hi) && Outside(t, u, lo2, hi2) && lo <= lo2 && hi2 <= hi
    ensures Outside(s, u, lo, hi)
  {}

  lemma UnmapOutside(s: State, x: Slot)
    requires Inv(s) && Enabled(s, Unmap(x))
    ensures var t := Next(s, Unmap(x));
            Inv(t) && Outside(s, t, x.d, x.d + 1) && OnlyEntry(s, t, x, ZERO) && t.held == s.held
  {
    UnmapKeeps(s, x);
    KernelReads(s, Next(s, Unmap(x)));
  }

  /** The first nr pages of row d are freed, by es, and nothing else has changed. */
  ghost predicate Freeing(s: State, t: State, d: nat, nr: nat, es: seq<Step>) {
    && Inv(t) && Run(s, es, t) && InRange(es, d, d + 1)
    && Outside(s, t, d, d + 1) && t.held == s.held && Dir(t, d) == Dir(s, d)
    && forall j: nat | j < nr && j < NPTE :: !Entry(t, Slot(d, j)).present
  }

  lemma FreeingOne(s: State, t: State, d: nat, nr: nat, es: seq<Step>)
    requires Freeing(s, t, d, nr, es) && Enabled(t, Unmap(Slot(d, nr)))
    ensures Freeing(s, Next(t, Unmap(Slot(d, nr))), d, nr + 1, es + [Unmap(Slot(d, nr))])
  {
    var x := Slot(d, nr);
    var u := Next(t, Unmap(x));
    UnmapOutside(t, x);
    OutsideThen(s, t, u, d, d + 1, d, d + 1);
    RunStep(s, es, t, Unmap(x));
    forall j: nat | j < nr + 1 ensures !Entry(u, Slot(d, j)).present { assert IsSource(Slot(d, j)); }
  }

  /** Directory entries lo .. d are freed, by es, and nothing outside lo .. hi has changed. */
  ghost predicate Clearing(s: State, t: State, lo: nat, d: nat, hi: nat, es: seq<Step>) {
    && Inv(t) && Run(s, es, t) && InRange(es, lo, hi)
    && Outside(s, t, lo, hi) && Unmapped(t, lo, d) && t.held == s.held
  }

  lemma ClearingOne(s: State, t: State, u: State, lo: nat, d: nat, hi: nat, es: seq<Step>, fs: seq<Step>)
    requires Clearing(s, t, lo, d, hi, es) && lo <= d < hi && Inv(u) && Run(t, fs, u) && InRange(fs, d, d + 1)
    requires Outside(t, u, d, d + 1) && !HasTable(u, d) && u.held == t.held
    ensures Clearing(s, u, lo, d + 1, hi, es + fs)
  {
    OutsideThen(s, t, u, lo, hi, d, d + 1);
    RunThen(s, es, t, fs, u);
    forall e: nat | lo <= e < d + 1 ensures !HasTable(u, e) {
      if e < d { assert !HasTable(t, e) && Dir(u, e) == Dir(t, e); }
    }
  }

  lemma DropTableOutside(s: State, d: nat)
    requires Inv(s) && Enabled(s, DropTable(d))
    ensures var t := Next(s, DropTable(d)); Inv(t) && Outside(s, t, d, d + 1) && !HasTable(t, d) && t.held == s.held
  {
    DropTableKeeps(s, d);
    KernelReads(s, Next(s, DropTable(d)));
  }

  // ---- Copying rows of page-table entries ----

  /** Rows lo .. hi may be filled from rows shift away: a parent's area at a distance of whole
      areas, or the first 160 pages of task 0. */
  ghost predicate Geometry(shift: int, lo: nat, hi: nat, m: nat) {
    && AREA <= lo <= hi <= NDIR && shift % AREA == 0
    && (|| (m == NPTE && AREA <= lo + shift && hi + shift <= NDIR && (hi <= lo + shift || hi + shift <= lo))
        || (m == 160 && lo + shift == 0 && hi <= lo + 1))
  }

  /** Rows lo .. d are copied, by es, and nothing outside them has changed. */
  ghost predicate Copying(s: State, t: State, shift: int, lo: nat, d: nat, m: nat, es: seq<Step>) {
    && Inv(t) && Run(s, es, t) && InRange(es, lo, d)
    && Outside(s, t, lo, d) && t.held == s.held && Copied(s, t, shift, lo, d, m)
  }

  /** So are the first j pages of row d. */
  ghost predicate CopyingRow(s: State, t: State, shift: int, lo: nat, d: nat, j: nat, m: nat, es: seq<Step>) {
    && Inv(t) && Run(s, es, t) && InRange(es, lo, d + 1) && HasTable(t, d)
    && Outside(s, t, lo, d + 1) && t.held == s.held && Copied(s, t, shift, lo, d, m)
    && RowCopied(s, t, shift, d, j)
  }

  lemma CopyingNothing(s: State, shift: int, lo: nat, m: nat)
    requires Inv(s)
    ensures Copying(s, s, shift, lo, lo, m, [])
  {}

  lemma RowSource(shift: int, lo: nat, hi: nat, m: nat, d: nat, j: nat)
    requires Geometry(shift, lo, hi, m) && lo <= d < hi && j < m
    ensures 0 <= d + shift && IsSource(Slot(d + shift, j)) && !(lo <= d + shift < hi)
    ensures (d + shift) % AREA == d % AREA
  {}

  lemma RowSkipped(s: State, t: State, shift: int, lo: nat, hi: nat, d: nat, m: nat, es: seq<Step>)
    requires Geometry(shift, lo, hi, m) && Copying(s, t, shift, lo, d, m, es) && lo <= d < hi
    requires !HasTable(t, d) && !HasTable(t, d + shift)
    ensures Copying(s, t, shift, lo, d + 1, m, es)
  {
    hide Inv, Run;
    RowSource(shift, lo, hi, m, d, 0);
    assert !HasTable(s, d + shift);
    assert RowCopied(s, t, shift, d, m);
  }

  lemma RowBegun(s: State, t: State, shift: int, lo: nat, hi: nat, d: nat, m: nat, es: seq<Step>, f: nat)
    requires Geometry(shift, lo, hi, m) && Copying(s, t, shift, lo, d, m, es) && lo <= d < hi
    requires Enabled(t, Grab(f)) && !HasTable(t, d)
    ensures Enabled(Next(t, Grab(f)), MakeTable(d, f))
    ensures CopyingRow(s, Next(Next(t, Grab(f)), MakeTable(d, f)), shift, lo, d, 0, m, es + [Grab(f), MakeTable(d, f)])
  {
    hide Inv;
    RowSource(shift, lo, hi, m, d, 0);
    var u := Next(t, Grab(f));
    GrabOutside(t, f);
    assert Outside(t, u, d, d + 1);
    var v := Next(u, MakeTable(d, f));
    NewTable(t, u, v, d, f);
    OutsideThen(s, t, u, lo, d + 1, d, d + 1);
    OutsideThen(s, u, v, lo, d + 1, d, d + 1);
    RunStep(s, es, t, Grab(f));
    RunStep(s, es + [Grab(f)], u, MakeTable(d, f));
    assert es + [Grab(f)] + [MakeTable(d, f)] == es + [Grab(f), MakeTable(d, f)];
    CopiedKept(s, t, v, shift, lo, d, m);
  }

  lemma NewTable(t: State, u: State, v: State, d: nat, f: nat)
    requires Inv(t) && Inv(u) && Enabled(t, Grab(f)) && u == Next(t, Grab(f)) && f !in t.held && SameTables(t, u)
    requires IsDir(d) && !HasTable(t, d) && v == Next(u, MakeTable(d, f))
    ensures Enabled(u, MakeTable(d, f))
    ensures Inv(v) && HasTable(v, d) && Outside(u, v, d, d + 1) && v.held == t.held
    ensures forall j: nat | j < NPTE :: ReadPage(v, Slot(d, j)) == Absent
  {
    assert Frame(u, f) == ZeroPage();
    assert Enabled(u, MakeTable(d, f));
    MakeTableKeeps(u, d, f);
    KernelReads(u, v);
    forall j: nat | j < NPTE ensures ReadPage(v, Slot(d, j)) == Absent { assert IsSource(Slot(d, j)); }
  }

  /** Rows already copied are not touched by work on row d. */
  lemma CopiedKept(s: State, t: State, v: State, shift: int, lo: nat, d: nat, m: nat)
    requires Copied(s, t, shift, lo, d, m) && AREA <= lo <= d < NDIR
    requires forall x | IsSlot(x) && x.d != d :: ReadPage(v, x) == ReadPage(t, x)
    ensures Copied(s, v, shift, lo, d, m)
  {
    forall e: nat | lo <= e < d ensures RowCopied(s, v, shift, e, m) { assert RowCopied(s, t, shift, e, m); }
  }

  lemma PageSkipped(s: State, t: State, shift: int, lo: nat, hi: nat, d: nat, j: nat, m: nat, es: seq<Step>)
    requires Geometry(shift, lo, hi, m) && CopyingRow(s, t, shift, lo, d, j, m, es) && lo <= d < hi && j < m
    requires 0 <= d + shift && !Entry(t, Slot(d + shift, j)).present
    ensures CopyingRow(s, t, shift, lo, d, j + 1, m, es)
  {
    RowSource(shift, lo, hi, m, d, j);
    assert ReadPage(t, Slot(d + shift, j)) == ReadPage(s, Slot(d + shift, j));
  }

  lemma PageCopied(s: State, t: State, shift: int, lo: nat, hi: nat, d: nat, j: nat, m: nat, es: seq<Step>)
    requires Geometry(shift, lo, hi, m) && CopyingRow(s, t, shift, lo, d, j, m, es) && lo <= d < hi && j < m
    requires 0 <= d + shift && Entry(t, Slot(d + shift, j)).present
    ensures var e := Share(Slot(d + shift, j), Slot(d, j));
            Enabled(t, e) && CopyingRow(s, Next(t, e), shift, lo, d, j + 1, m, es + [e])
                && Dir(Next(t, e), d) == Dir(t, d)
  {
    hide Inv, Next, Enabled;
    var x, y := Slot(d + shift, j), Slot(d, j);
    PageReady(s, t, shift, lo, hi, d, j, m, es);
    var u := Next(t, Share(x, y));
    SharedRow(t, u, x, y);
    OutsideThen(s, t, u, lo, d + 1, d, d + 1);
    RunStep(s, es, t, Share(x, y));
    CopiedKept(s, t, u, shift, lo, d, m);
    assert ReadPage(u, y) == ReadPage(s, x);
  }

  lemma PageReady(s: State, t: State, shift: int, lo: nat, hi: nat, d: nat, j: nat, m: nat, es: seq<Step>)
    requires Geometry(shift, lo, hi, m) && CopyingRow(s, t, shift, lo, d, j, m, es) && lo <= d < hi && j < m
    requires 0 <= d + shift && Entry(t, Slot(d + shift, j)).present
    ensures Enabled(t, Share(Slot(d + shift, j), Slot(d, j)))
    ensures ReadPage(t, Slot(d + shift, j)) == ReadPage(s, Slot(d + shift, j))
  {
    hide Inv, Run, Copied;
    RowSource(shift, lo, hi, m, d, j);
    assert ReadPage(t, Slot(d, j)) == Absent;
  }

  lemma SharedRow(t: State, u: State, x: Slot, y: Slot)
    requires Inv(t) && Enabled(t, Share(x, y)) && u == Next(t, Share(x, y))
    ensures Inv(u) && Outside(t, u, y.d, y.d + 1) && u.held == t.held && Dir(u, y.d) == Dir(t, y.d)
    ensures forall z | IsSlot(z) :: ReadPage(u, z) == if z == y then ReadPage(t, x) else ReadPage(t, z)
  {
    ShareKeeps(t, x, y);
    KernelReads(t, u);
  }

  lemma RowDone(s: State, t: State, shift: int, lo: nat, d: nat, m: nat, es: seq<Step>)
    requires CopyingRow(s, t, shift, lo, d, m, m, es)
    ensures Copying(s, t, shift, lo, d + 1, m, es)
  {}

  lemma CopyStopped(s: State, t: State, shift: int, lo: nat, d: nat, hi: nat, m: nat, r: Outcome, es: seq<Step>)
    requires Copying(s, t, shift, lo, d, m, es) && lo <= d < hi && r != Done
    requires r == NoMemory ==> forall g | LOW <= g < NFRAMES :: Count(t, g) != 0
    requires r == Panic ==> HasTable(t, d)
    ensures CopyResult(s, t, shift, lo, hi, m, r, es)
  {
    assert HasTable(t, d) == HasTable(s, d);
  }

  /** The shared low memory reads as itself. */
  lemma KernelReads(s: State, t: State)
    requires KernelMap(s) && KernelMap(t) && forall x | IsSource(x) && x.d == 0 :: Entry(t, x) == Entry(s, x)
    ensures forall x | IsSource(x) && x.d == 0 :: ReadPage(t, x) == ReadPage(s, x)
  {
    forall x | IsSource(x) && x.d == 0 ensures ReadPage(t, x) == ReadPage(s, x) { assert x == Slot(0, x.j); }
  }

  /** Counts are a function of who names what. */
  lemma CountsDetermined(s: State, t: State)
    requires Inv(s) && Inv(t) && s.start == t.start && s.high == t.high && s.held == t.held
    requires forall x | IsSlot(x) :: Where(t, x) == Where(s, x)
    requires forall d | IsDir(d) ::
               HasTable(t, d) == HasTable(s, d) && (HasTable(s, d) ==> Dir(t, d).frame == Dir(s, d).frame)
    ensures t.memMap == s.memMap
  {
    forall i | 0 <= i < NFRAMES - LOW ensures t.memMap[i] == s.memMap[i] {
      var f := i + LOW;
      PteRefsSame(s, t, f);
      assert DirRefs(t, f) == DirRefs(s, f);
      assert CountExact(s, f) && CountExact(t, f);
      assert Count(s, f) == s.memMap[i] && Count(t, f) == t.memMap[i];
    }
  }

  /** nr in copy_page_tables: the first fork copies 640 kB only. */
  function Pages(from: nat): nat { if from == 0 then 160 else NPTE }

  /** The page that linear address a is in. */
  function PageOf(a: nat): Slot { Slot(a / 0x40_0000, a / 4096 % 1024) }

  /** What a task reads at the page of byte a behind `from`. */
  function ReadByte(s: State, from: nat, a: nat): View { ReadPage(s, PageOf(from + a)) }

  /** The pages of `size` bytes from `to` on read as those from `from` on did; of the kernel's memory only the
      first 640 KB are there. */
  ghost predicate BytesCopied(s: State, t: State, from: nat, to: nat, size: nat) {
    forall a: nat | a < size ::
      ReadByte(t, to, a) == if from == 0 && a >= 0xa_0000 then Absent else ReadByte(s, from, a)
  }

  ghost predicate BytesAbsent(s: State, from: nat, size: nat) {
    forall a: nat | a < size :: ReadByte(s, from, a) == Absent
  }

  lemma AddressSplit(from: nat, a: nat)
    requires from % DIRSPAN == 0
    ensures PageOf(from + a) == Slot(from / DIRSPAN + a / DIRSPAN, a / 4096 % 1024)
  {
    Multiple(from / DIRSPAN, 0x40_0000, a);
    Multiple(from / DIRSPAN * 1024, 4096, a);
    Multiple(from / DIRSPAN, 1024, a / 4096);
  }

  lemma Multiple(k: nat, n: nat, a: nat)
    requires n in {1024, 4096, 0x40_0000}
    ensures (k * n + a) / n == k + a / n && (k * n + a) % n == a % n
  {}

  lemma RowsReach(a: nat, size: nat)
    requires a < size && size + (DIRSPAN - 1) < WORDS
    ensures a / DIRSPAN < Dirs(size)
  {}

  lemma CopiedBytes(s: State, t: State, from: nat, to: nat, size: nat)
    requires from % DIRSPAN == 0 && to % DIRSPAN == 0 && size + 0x3f_ffff < 0x1_0000_0000
    requires from == 0 ==> size <= 0x40_0000
    requires Copied(s, t, from / DIRSPAN - to / DIRSPAN, to / DIRSPAN, to / DIRSPAN + Dirs(size), Pages(from))
    ensures BytesCopied(s, t, from, to, size)
  {
    forall a: nat | a < size
      ensures ReadByte(t, to, a) == if from == 0 && a >= 0xa_0000 then Absent else ReadByte(s, from, a)
    {
      AddressSplit(from, a);
      AddressSplit(to, a);
      RowsReach(a, size);
      hide ReadPage, PageOf, Dirs;
      assert RowCopied(s, t, from / DIRSPAN - to / DIRSPAN, to / DIRSPAN + a / DIRSPAN, Pages(from));
    }
  }

  lemma UnmappedBytes(s: State, from: nat, size: nat)
    requires from % DIRSPAN == 0 && size + 0x3f_ffff < 0x1_0000_0000
    requires Unmapped(s, from / DIRSPAN, from / DIRSPAN + Dirs(size))
    ensures BytesAbsent(s, from, size)
  {
    forall a: nat | a < size ensures ReadByte(s, from, a) == Absent {
      AddressSplit(from, a);
      RowsReach(a, size);
    }
  }

  ghost predicate CopyResult(s: State, t: State, shift: int, lo: nat, hi: nat, m: nat, r: Outcome, es: seq<Step>) {
    && Outside(s, t, lo, hi) && InRange(es, lo, hi)
    && (r == Done ==> Copied(s, t, shift, lo, hi, m))
    && (r == NoMemory ==> forall g | LOW <= g < NFRAMES :: Count(t, g) != 0)
    && (r == Panic ==> !Unmapped(s, lo, hi))
  }

  lemma CopyDone(s: State, t: State, from: nat, to: nat, size: nat, r: Outcome, es: seq<Step>)
    requires from % DIRSPAN == 0 && to % DIRSPAN == 0 && size < WORDS
    requires Geometry(from / DIRSPAN - to / DIRSPAN, to / DIRSPAN, to / DIRSPAN + Dirs(size), Pages(from))
    requires CopyResult(s, t, from / DIRSPAN - to / DIRSPAN, to / DIRSPAN, to / DIRSPAN + Dirs(size), Pages(from), r,
             es)
    ensures r == Done && size + 0x3f_ffff < 0x1_0000_0000 ==> BytesCopied(s, t, from, to, size)
  {
    if r == Done && size + 0x3f_ffff < 0x1_0000_0000 {
      assert from == 0 ==> size <= 0x40_0000;
      hide ReadPage, Outside, InRange, Dirs, BytesCopied;
      CopiedBytes(s, t, from, to, size);
    }
  }

  /** The byte has room for one more mapping. */
  lemma CountFits(s: State, x: Slot)
    requires Inv(s) && IsSource(x) && Entry(s, x).present && Entry(s, x).frame >= LOW
    ensures Managed(s, Entry(s, x).frame) && IsSlot(x) && 0 < Count(s, Entry(s, x).frame) < 255
  {
    assert x == Slot(x.d, x.j);
    MappedCounted(s, x);
    RolesOf(s, Entry(s, x).frame);
  }

  /** A failed copy followed by freeing leaves every count as it was. */
  lemma RolledBack(s: State, t: State, u: State, lo: nat, hi: nat)
    requires Inv(s) && Inv(u) && s.start == u.start && s.high == u.high
    requires Outside(s, t, lo, hi) && Outside(t, u, lo, hi) && Unmapped(s, lo, hi) && Unmapped(u, lo, hi)
             && s.held == u.held
    ensures u.memMap == s.memMap && ReadsSame(s, u)
  {
    forall x | IsSlot(x) ensures Where(u, x) == Where(s, x) && ReadPage(u, x) == ReadPage(s, x) {
      if lo <= x.d < hi {
        assert !HasTable(s, x.d) && !HasTable(u, x.d);
      } else {
        assert Where(t, x) == Where(s, x);
      }
    }
    forall d: nat | IsDir(d) ensures HasTable(u, d) == HasTable(s, d) && (HasTable(s, d) ==> Dir(u, d) == Dir(s, d)) {
      if lo <= d < hi { assert !HasTable(s, d) && !HasTable(u, d); } else { assert Dir(t, d) == Dir(s, d); }
    }
    CountsDetermined(s, u);
  }

  lemma {:induction false} RunBounds(s: State, es: seq<Step>, t: State)
    requires Run(s, es, t)
    ensures t.start == s.start && t.high == s.high
    decreases |es|
  {
    if es != [] {
      StepBounds(s, es[0]);
      RunBounds(Next(s, es[0]), es[1..], t);
    }
  }

  lemma StepBounds(s: State, e: Step)
    ensures Next(s, e).start == s.start && Next(s, e).high == s.high
  {}

  lemma ForkRun(s: State, e: Step, t: State, fs: seq<Step>, u: State, lo: nat, hi: nat)
    requires Enabled(s, e) && t == Next(s, e) && e.Grab? && Run(t, fs, u) && InRange(fs, lo, hi)
    ensures Run(s, [e] + fs, u) && InRange([e] + fs, lo, hi)
  {
    assert Run(s, [], s) && [] + [e] == [e];
    RunStep(s, [], s, e);
    RunThen(s, [e], t, fs, u);
  }

  lemma QuietStep(s: State, es: seq<Step>, t: State, e: Step, lo: nat, hi: nat)
    requires Run(s, es, t) && InRange(es, lo, hi) && Enabled(t, e) && Subject(e) == None
    ensures Run(s, es + [e], Next(t, e)) && InRange(es + [e], lo, hi)
  {
    RunStep(s, es, t, e);
  }

  lemma RunFrees(s: State, es: seq<Step>, t: State, fs: seq<Step>, u: State, lo: nat, hi: nat)
    requires Inv(s) && Run(s, es, t) && Run(t, fs, u)
    requires Outside(s, t, lo, hi) && Outside(t, u, lo, hi) && Unmapped(s, lo, hi) && Unmapped(u, lo, hi)
             && s.held == u.held
    ensures Run(s, es + fs, u) && u.memMap == s.memMap && ReadsSame(s, u)
  {
    RunThen(s, es, t, fs, u);
    RunKeeps(s, es + fs, u);
    RunBounds(s, es + fs, u);
    RolledBack(s, t, u, lo, hi);
  }

  lemma EntryInMemory(s: State, x: Slot)
    requires Apart(s) && IsSource(x) && HasTable(s, x.d)
    ensures 0 < Dir(s, x.d).frame < NFRAMES && Entry(s, x) == s.mem[Dir(s, x.d).frame][x.j]
  {}

  // ---- Faults ----

  ghost function PageAt(s: State, x: Slot): Page { Frame(s, Entry(s, x).frame) }

  /** The page of task cur now reads like the same page of another task with the same executable,
      where that page is clean. */
  ghost predicate CopiedFromTwin(s: State, t: State, cur: nat, i: nat, j: nat, twins: seq<bool>) {
    exists p: nat :: p < |twins| && twins[p] && !Entry(s, Slot(p * AREA + i, j)).dirty
      && ReadPage(s, Slot(p * AREA + i, j)).Own?
      && ReadsBut(s, t, Slot(cur * AREA + i, j), ReadPage(s, Slot(p * AREA + i, j)))
  }

  /** A run that concerns no page outside row d. */
  ghost predicate Ran(s: State, es: seq<Step>, t: State, d: nat) {
    Inv(t) && Run(s, es, t) && InRange(es, d, d + 1)
  }

  lemma RanNothing(s: State, d: nat)
    requires Inv(s)
    ensures Ran(s, [], s, d)
  {}

  lemma RanOne(s: State, es: seq<Step>, t: State, e: Step, d: nat)
    requires Inv(s) && Ran(s, es, t, d) && Enabled(t, e) && (Subject(e).Some? ==> Subject(e).value.d == d)
    ensures Ran(s, es + [e], Next(t, e), d)
  {
    RunStep(s, es, t, e);
    StepKeeps(t, e);
  }

  lemma RanGrab(s: State, f: nat, d: nat)
    requires Inv(s) && Enabled(s, Grab(f))
    ensures var t := Next(s, Grab(f));
            Ran(s, [Grab(f)], t, d) && SameTables(s, t) && Outside(s, t, 0, 0) && f !in s.held
  {
    GrabOutside(s, f);
    RanNothing(s, d);
    RanOne(s, [], s, Grab(f), d);
    assert [] + [Grab(f)] == [Grab(f)];
  }

  lemma MappedApart(s: State, x: Slot)
    requires Inv(s) && IsSlot(x) && Entry(s, x).present
    ensures Entry(s, x).frame < NFRAMES && Entry(s, x).frame != Dir(s, x.d).frame
  {}

  lemma RanBoth(s: State, es: seq<Step>, t: State, fs: seq<Step>, u: State, d: nat)
    requires Ran(s, es, t, d) && Ran(t, fs, u, d)
    ensures Ran(s, es + fs, u, d)
  {
    RunThen(s, es, t, fs, u);
  }

  lemma TableMade(s: State, d: nat, f: nat)
    requires Inv(s) && Enabled(s, Grab(f)) && IsDir(d) && !HasTable(s, d)
    ensures var t := Next(Next(s, Grab(f)), MakeTable(d, f));
            && Ran(s, [Grab(f), MakeTable(d, f)], t, d) && ReadsSame(s, t) && t.held == s.held && HasTable(t, d)
            && (forall g | g in s.held :: Frame(t, g) == Frame(s, g))
            && (forall x | IsSlot(x) && x.d != d :: Entry(t, x) == Entry(s, x))
            && (forall e | e != d :: Dir(t, e) == Dir(s, e))
            && (forall j: nat | j < NPTE :: !Entry(t, Slot(d, j)).present)
  {
    var u := Next(s, Grab(f));
    FreeUnnamed(s, f);
    GrabKeeps(s, f);
    RanNothing(s, d);
    RanOne(s, [], s, Grab(f), d);
    NewTable(s, u, Next(u, MakeTable(d, f)), d, f);
    MakeTableKeeps(u, d, f);
    RanOne(s, [Grab(f)], u, MakeTable(d, f), d);
    assert [] + [Grab(f)] == [Grab(f)] && [Grab(f)] + [MakeTable(d, f)] == [Grab(f), MakeTable(d, f)];
    forall g | g in s.held ensures Frame(Next(u, MakeTable(d, f)), g) == Frame(s, g) { assert Managed(s, g); }
  }

  lemma Filled(s: State, t: State, f: nat, p: Page, d: nat)
    requires Inv(s) && Enabled(s, Grab(f)) && t == Next(s, Grab(f)) && f !in s.held
    ensures Inv(t) && Enabled(t, Fill(f, p))
    ensures var u := Next(t, Fill(f, p)); Ran(s, [Grab(f), Fill(f, p)], u, d) && ReadsSame(s, u) && Frame(u, f) == p
    ensures var u := Next(t, Fill(f, p)); forall x | IsSlot(x) :: Entry(u, x) == Entry(s, x)
  {
    RanNothing(s, d);
    GrabKeeps(s, f);
    RanOne(s, [], s, Grab(f), d);
    FillKeeps(t, f, p);
    RanOne(s, [Grab(f)], t, Fill(f, p), d);
    assert [] + [Grab(f)] == [Grab(f)] && [Grab(f)] + [Fill(f, p)] == [Grab(f), Fill(f, p)];
  }

  const TASKSPAN := 0x400_0000     // 64 MB of linear addresses per task

  lemma TaskGeometry(nr: nat, oldBase: nat, limit: nat)
    requires 1 <= nr < 64 && oldBase % TASKSPAN == 0 && oldBase < WORDS && oldBase != nr * TASKSPAN
    requires limit <= if oldBase == 0 then DIRSPAN else TASKSPAN
    ensures nr * TASKSPAN < WORDS && nr * TASKSPAN % DIRSPAN == 0 && oldBase % DIRSPAN == 0
    ensures nr * TASKSPAN / DIRSPAN == nr * AREA && Dirs(limit) <= AREA
    ensures Geometry(oldBase / DIRSPAN - nr * AREA, nr * AREA, nr * AREA + Dirs(limit), Pages(oldBase))
  {
    var p := oldBase / TASKSPAN;
    assert oldBase == p * TASKSPAN;
    assert oldBase / DIRSPAN == p * AREA;
    assert (p * AREA - nr * AREA) % AREA == 0;
  }

  lemma ForkedBytes(s: State, t: State, nr: nat, oldBase: nat, limit: nat)
    requires 1 <= nr < 64 && oldBase % TASKSPAN == 0 && oldBase < WORDS && oldBase != nr * TASKSPAN
    requires limit <= if oldBase == 0 then DIRSPAN else TASKSPAN
    requires var lo := nr * AREA; Copied(s, t, oldBase / DIRSPAN - lo, lo, lo + Dirs(limit), Pages(oldBase))
    ensures BytesCopied(s, t, oldBase, nr * 0x400_0000, limit)
  {
    TaskGeometry(nr, oldBase, limit);
    hide Copied, BytesCopied, Geometry, Dirs, Pages;
    CopiedBytes(s, t, oldBase, nr * TASKSPAN, limit);
  }

  lemma GrabOutside(s: State, f: nat)
    requires Inv(s) && Enabled(s, Grab(f))
    ensures var t := Next(s, Grab(f)); Inv(t) && SameTables(s, t) && Outside(s, t, 0, 0) && f !in s.held
  {
    FreeUnnamed(s, f);
    GrabKeeps(s, f);
    KernelReads(s, Next(s, Grab(f)));
  }

  lemma Released(s: State, t: State, u: State, v: State, p: nat)
    requires LOW <= p < NFRAMES && Count(s, p) == 0 && t == Next(s, Grab(p)) && v == Next(u, Release(p)) && p !in s.held
    requires u.memMap == t.memMap && u.held == t.held && ReadsSame(t, u)
    requires ReadsSame(s, t) && ReadsSame(u, v)
    ensures v.memMap == s.memMap && v.held == s.held && ReadsSame(s, v)
  {}

  lemma CopiedLater(s: State, t: State, u: State, nr: nat, oldBase: nat, limit: nat)
    requires 1 <= nr < 64 && oldBase % TASKSPAN == 0 && oldBase < WORDS && oldBase != nr * TASKSPAN
    requires limit <= if oldBase == 0 then DIRSPAN else TASKSPAN
    requires var lo, hi := nr * AREA, nr * AREA + Dirs(limit);
             Outside(t, u, lo, hi) && Copied(t, u, oldBase / DIRSPAN - lo, lo, hi, Pages(oldBase))
    requires Outside(s, t, 0, 0)
    ensures var lo, hi := nr * AREA, nr * AREA + Dirs(limit);
            Outside(s, u, lo, hi) && Copied(s, u, oldBase / DIRSPAN - lo, lo, hi, Pages(oldBase))
  {
    var lo, hi, shift, m := nr * AREA, nr * AREA + Dirs(limit), oldBase / DIRSPAN - nr * AREA, Pages(oldBase);
    TaskGeometry(nr, oldBase, limit);
    forall d: nat | lo <= d < hi ensures RowCopied(s, u, shift, d, m) {
      assert RowCopied(t, u, shift, d, m);
      forall x: Slot | x.d == d + shift && x.j < m ensures ReadPage(t, x) == ReadPage(s, x) {
        RowSource(shift, lo, hi, m, d, x.j);
        assert x == Slot(d + shift, x.j);
      }
    }
  }

  class Memory {
    var highMemory: nat             // HIGH_MEMORY >> 12
    const memMap: array<Byte>
    const pages: array<Page>
    ghost var start: nat
    ghost var held: set<nat>

    ghost predicate Shape() { memMap.Length == NFRAMES - LOW && pages.Length == NFRAMES }

    ghost function S(): State
      requires Shape()
      reads this, memMap, pages
    {
      State(start, highMemory, memMap[..], pages[..], held)
    }

    ghost predicate Valid()
      reads this, memMap, pages
    {
      Shape() && Inv(S())
    }

    /** mem_init, on memory where head.s has built the kernel's map and no task has tables. */
    constructor MemInit(startMem: nat, endMem: nat, boot: seq<Page>)
      requires LOW <= startMem <= endMem <= NFRAMES && |boot| == NFRAMES
      requires var s := Booted(startMem, endMem, boot); KernelMap(s) && Unmapped(s, AREA, NDIR)
      ensures Valid() && S().mem == boot && S().start == startMem && S().high == endMem && S().held == {}
      ensures forall f | LOW <= f < NFRAMES :: Count(S(), f) == if Managed(S(), f) then 0 else USED
      ensures fresh(memMap) && fresh(pages)
    {
      highMemory, start, held := endMem, startMem, {};
      memMap := new Byte[NFRAMES - LOW];
      pages := new Page[NFRAMES](i requires 0 <= i < NFRAMES => boot[i]);
      new;
      assert pages[..] == boot;
      var i := 0;
      while i < NFRAMES - LOW
        invariant 0 <= i <= NFRAMES - LOW
        invariant forall k | 0 <= k < i :: memMap[k] == USED
        modifies memMap
      {
        memMap[i] := USED;
        i := i + 1;
      }
      i := startMem - LOW;
      var n := endMem - startMem;
      while n > 0
        invariant 0 <= n && i == endMem - LOW - n && startMem - LOW <= i
        invariant forall k | 0 <= k < NFRAMES - LOW :: memMap[k] == if startMem - LOW <= k < i then 0 else USED
        modifies memMap
      {
        n := n - 1;
        memMap[i] := 0;
        i := i + 1;
      }
      ghost var s := Booted(startMem, endMem, boot);
      forall x ensures Entry(S(), x) == Entry(s, x) {}
      forall d | IsDir(d) ensures !HasTable(S(), d) { assert !HasTable(s, d) && Dir(S(), d) == Dir(s, d); }
      forall f | LOW <= f < NFRAMES ensures CountExact(S(), f) {
        assert PteRefs(S(), f) == {} by { forall x | x in AllSlots() ensures Where(S(), x) == None { SlotsAll(x); } }
        assert DirRefs(S(), f) == {};
      }
      forall j: nat | j < 160 ensures Entry(S(), Slot(0, j)).frame < LOW {
        assert Entry(S(), Slot(0, j)) == Entry(s, Slot(0, j));
      }
    }

    /** The scan goes down from the last frame; 0 means that no frame is free. */
    method GetFreePage() returns (f: nat)
      requires Valid()
      modifies `held, memMap, pages
      ensures Valid()
      ensures f == 0 ==> S() == old(S()) && forall g | LOW <= g < NFRAMES :: Count(S(), g) != 0
      ensures f != 0 ==> Enabled(old(S()), Grab(f)) && S() == Next(old(S()), Grab(f))
                         && forall g | f < g < NFRAMES :: Count(old(S()), g) != 0
    {
      ghost var s := S();
      var i := NFRAMES - LOW;
      while i > 0
        invariant 0 <= i <= NFRAMES - LOW
        invariant forall k | i <= k < NFRAMES - LOW :: memMap[k] != 0
      {
        i := i - 1;
        if memMap[i] == 0 {
          f := LOW + i;
          assert Enabled(s, Grab(f));
          GrabKeeps(s, f);
          memMap[i] := 1;
          pages[f] := ZeroPage();
          held := held + {f};
          assert S() == Next(s, Grab(f));
          return;
        }
      }
      f := 0;
    }

    /** Drops one reference; the last two cases are the panics. */
    method FreePage(f: nat) returns (r: Outcome)
      requires Shape() && highMemory <= NFRAMES
      modifies memMap
      ensures f < LOW ==> r == Done && S() == old(S())
      ensures f >= LOW && f >= highMemory ==> r == Panic && S() == old(S())
      ensures LOW <= f < highMemory && Count(old(S()), f) == 0 ==> r == Panic && S() == old(S())
      ensures LOW <= f < highMemory && Count(old(S()), f) > 0 ==> r == Done && S() == Uncount(old(S()), f)
    {
      if f < LOW { return Done; }
      if f >= highMemory { return Panic; }
      var i := f - LOW;
      var was: nat := memMap[i];
      memMap[i] := (was + 255) % 256;
      if was != 0 { return Done; }
      memMap[i] := 0;
      return Panic;
    }

    /** free_page on a frame its caller holds: never a panic. */
    method FreeHeld(f: nat)
      requires Valid() && f in held
      modifies `held, memMap
      ensures Valid() && S() == Next(old(S()), Release(f)) && ReadsSame(old(S()), S())
    {
      ghost var s := S();
      HeldCounted(s, f);
      ReleaseKeeps(s, f);
      var q := FreePage(f);
      assert q == Done;
      held := held - {f};
    }

    /** exit and a failed fork: every page and every table of the range is given back. */
    method FreePageTables(from: nat, size: nat) returns (r: Outcome, ghost es: seq<Step>)
      requires Valid() && from < WORDS && size < WORDS
      requires from % DIRSPAN == 0 && from != 0 ==> AREA <= from / DIRSPAN && from / DIRSPAN + Dirs(size) <= NDIR
      modifies `held, memMap, pages
      ensures Valid() && Run(old(S()), es, S())
      ensures from % DIRSPAN != 0 || from == 0 ==> r == Panic && S() == old(S())
      ensures from % DIRSPAN == 0 && from != 0 ==>
                var lo, hi := from / DIRSPAN, from / DIRSPAN + Dirs(size);
                && r == Done && Outside(old(S()), S(), lo, hi) && Unmapped(S(), lo, hi) && S().held == old(S()).held
                && InRange(es, lo, hi)
      ensures r == Done && size + 0x3f_ffff < 0x1_0000_0000 ==> BytesAbsent(S(), from, size)
    {
      es := [];
      if from % DIRSPAN != 0 { return Panic, es; }
      if from == 0 { return Panic, es; }
      es := FreeTables(from / DIRSPAN, Dirs(size));
      if size + 0x3f_ffff < 0x1_0000_0000 { UnmappedBytes(S(), from, size); }
      r := Done;
    }

    /** The outer loop of free_page_tables. */
    method FreeTables(dir: nat, size: nat) returns (ghost es: seq<Step>)
      requires Valid() && AREA <= dir && dir + size <= NDIR
      modifies `held, memMap, pages
      ensures Shape() && Clearing(old(S()), S(), dir, dir + size, dir + size, es)
    {
      ghost var s := S();
      es := [];
      var i := 0;
      while i < size
        invariant 0 <= i <= size && Shape() && Clearing(s, S(), dir, dir + i, dir + size, es)
      {
        ghost var t := S();
        ghost var fs := FreeOneTable(dir + i);
        ClearingOne(s, t, S(), dir, dir + i, dir + size, es, fs);
        es := es + fs;
        i := i + 1;
      }
    }

    /** The body of the outer loop of free_page_tables. */
    method FreeOneTable(dir: nat) returns (ghost es: seq<Step>)
      requires Valid() && IsDir(dir)
      modifies `held, memMap, pages
      ensures Valid() && Run(old(S()), es, S()) && InRange(es, dir, dir + 1)
      ensures Outside(old(S()), S(), dir, dir + 1) && !HasTable(S(), dir) && S().held == old(S()).held
    {
      ghost var s := S();
      assert pages[0][dir] == Dir(s, dir);
      if !pages[0][dir].present { return []; }
      var table := pages[0][dir].frame;
      es := FreeEntries(dir, table);
      ghost var t := S();
      FreeEmptied(dir, table);
      DropTableOutside(t, dir);
      OutsideThen(s, t, S(), dir, dir + 1, dir, dir + 1);
      RunStep(s, es, t, DropTable(dir));
      es := es + [DropTable(dir)];
    }

    /** The inner loop. */
    method FreeEntries(dir: nat, table: nat) returns (ghost es: seq<Step>)
      requires Valid() && IsDir(dir) && HasTable(S(), dir) && table == Dir(S(), dir).frame
      modifies memMap, pages
      ensures Shape() && Freeing(old(S()), S(), dir, NPTE, es)
    {
      ghost var s := S();
      es := [];
      var nr := 0;
      while nr < NPTE
        invariant 0 <= nr <= NPTE && Freeing(s, S(), dir, nr, es)
      {
        ghost var t := S();
        FreeEntry(dir, table, nr);
        FreeingOne(s, t, dir, nr, es);
        es := es + [Unmap(Slot(dir, nr))];
        nr := nr + 1;
      }
    }

    /** The end of the outer loop's body: the emptied table itself is freed. */
    method FreeEmptied(dir: nat, table: nat)
      requires Valid() && IsDir(dir) && HasTable(S(), dir) && table == Dir(S(), dir).frame
      requires forall j: nat | j < NPTE :: !Entry(S(), Slot(dir, j)).present
      modifies memMap, pages
      ensures Shape() && Enabled(old(S()), DropTable(dir)) && S() == Next(old(S()), DropTable(dir))
    {
      ghost var t := S();
      forall j: nat | j < NPTE ensures !Frame(t, table)[j].present { assert !Entry(t, Slot(dir, j)).present; }
      TableCounted(t, dir);
      var r := FreePage(table);
      assert r == Done;
      pages[0] := pages[0][dir := ZERO];
    }

    /** The body of the inner loop: the panics of free_page are not reached. */
    method FreeEntry(dir: nat, table: nat, nr: nat)
      requires Valid() && IsDir(dir) && nr < NPTE && HasTable(S(), dir) && table == Dir(S(), dir).frame
      modifies memMap, pages
      ensures Shape() && Enabled(old(S()), Unmap(Slot(dir, nr))) && S() == Next(old(S()), Unmap(Slot(dir, nr)))
    {
      ghost var t := S();
      ghost var x := Slot(dir, nr);
      var w := pages[table][nr];
      assert w == Entry(t, x);
      if w.present {
        if w.frame >= LOW { MappedCounted(t, x); }
        var r := FreePage(w.frame);
        assert r == Done;
      }
      pages[table] := pages[table][nr := ZERO];
    }

    /** fork: every present page of the range is shared read-only with the target range. */
    method CopyPageTables(from: nat, to: nat, size: nat) returns (r: Outcome, ghost es: seq<Step>)
      requires Valid() && from < WORDS && to < WORDS && size < WORDS
      requires from % DIRSPAN == 0 && to % DIRSPAN == 0 ==>
                 Geometry(from / DIRSPAN - to / DIRSPAN, to / DIRSPAN, to / DIRSPAN + Dirs(size), Pages(from))
      modifies `held, memMap, pages
      ensures Valid() && Run(old(S()), es, S()) && S().held == old(S()).held
      ensures from % DIRSPAN != 0 || to % DIRSPAN != 0 ==> r == Panic && S() == old(S())
      ensures from % DIRSPAN == 0 && to % DIRSPAN == 0 ==>
                CopyResult(old(S()), S(), from / DIRSPAN - to / DIRSPAN, to / DIRSPAN, to / DIRSPAN + Dirs(size),
                           Pages(from), r, es)
      ensures r == Done && size + 0x3f_ffff < 0x1_0000_0000 ==> BytesCopied(old(S()), S(), from, to, size)
    {
      if from % DIRSPAN != 0 || to % DIRSPAN != 0 { return Panic, []; }
      ghost var s := S();
      hide Inv, Run, Outside, InRange, CopyResult, Geometry, BytesCopied, Dirs, Pages;
      r, es := CopyRows(from / DIRSPAN, to / DIRSPAN, Dirs(size), Pages(from));
      CopyDone(s, S(), from, to, size, r, es);
    }

    /** The outer loop of copy_page_tables. */
    method CopyRows(fromDir: nat, toDir: nat, size: nat, m: nat) returns (r: Outcome, ghost es: seq<Step>)
      requires Valid() && Geometry(fromDir - toDir, toDir, toDir + size, m)
      modifies `held, memMap, pages
      ensures Valid() && Run(old(S()), es, S()) && S().held == old(S()).held
      ensures CopyResult(old(S()), S(), fromDir - toDir, toDir, toDir + size, m, r, es)
    {
      hide Inv, Run, InRange, Outside, Copied, Geometry;
      es := [];
      ghost var s := S();
      var i := 0;
      ghost var shift, hi := fromDir - toDir, toDir + size;
      CopyingNothing(s, shift, toDir, m);
      while i < size
        invariant 0 <= i <= size && Shape() && Copying(s, S(), shift, toDir, toDir + i, m, es)
      {
        r, es := CopyTable(s, shift, toDir, hi, toDir + i, fromDir + i, m, es);
        if r != Done {
          CopyStopped(s, S(), shift, toDir, toDir + i, hi, m, r, es);
          return;
        }
        i := i + 1;
      }
      r := Done;
    }

    /** The body of the outer loop. */
    method CopyTable(ghost s: State, ghost shift: int, ghost lo: nat, ghost hi: nat, toDir: nat, fromDir: nat, m: nat,
                     ghost before: seq<Step>)
      returns (r: Outcome, ghost es: seq<Step>)
      requires Shape() && Geometry(shift, lo, hi, m) && lo <= toDir < hi && fromDir == toDir + shift
      requires Copying(s, S(), shift, lo, toDir, m, before)
      modifies `held, memMap, pages
      ensures Shape() && Copying(s, S(), shift, lo, if r == Done then toDir + 1 else toDir, m, es)
      ensures r == NoMemory ==> forall g | LOW <= g < NFRAMES :: Count(S(), g) != 0
      ensures r == Panic ==> HasTable(S(), toDir)
    {
      ghost var t := S();
      es := before;
      assert pages[0][toDir] == Dir(t, toDir) && pages[0][fromDir] == Dir(t, fromDir);
      if pages[0][toDir].present { return Panic, es; }
      if !pages[0][fromDir].present {
        RowSkipped(s, t, shift, lo, hi, toDir, m, es);
        return Done, es;
      }
      var fs, f := NewTableFor(toDir);
      if f == 0 { return NoMemory, es; }
      RowBegun(s, t, shift, lo, hi, toDir, m, es, f);
      RowSource(shift, lo, hi, m, toDir, 0);
      es := CopyRow(s, shift, lo, hi, toDir, fromDir, m, es + fs);
      r := Done;
    }

    /** A zeroed page becomes the page table of d; 0 when there is none. */
    method NewTableFor(d: nat) returns (ghost fs: seq<Step>, f: nat)
      requires Valid() && IsDir(d) && !HasTable(S(), d)
      modifies `held, memMap, pages
      ensures Shape() && (f == 0 ==> S() == old(S()) && forall g | LOW <= g < NFRAMES :: Count(S(), g) != 0)
      ensures f != 0 ==> Enabled(old(S()), Grab(f)) && fs == [Grab(f), MakeTable(d, f)]
                         && S() == Next(Next(old(S()), Grab(f)), MakeTable(d, f)) && Dir(S(), d) == Or7(f)
    {
      fs := [];
      f := GetFreePage();
      if f == 0 { return; }
      pages[0] := pages[0][d := Or7(f)];
      held := held - {f};
      fs := [Grab(f), MakeTable(d, f)];
    }

    /** The inner loop of copy_page_tables. */
    method CopyRow(ghost s: State, ghost shift: int, ghost lo: nat, ghost hi: nat, toDir: nat, fromDir: nat, m: nat,
                   ghost before: seq<Step>)
      returns (ghost es: seq<Step>)
      requires Shape() && Geometry(shift, lo, hi, m) && lo <= toDir < hi && fromDir == toDir + shift
      requires CopyingRow(s, S(), shift, lo, toDir, 0, m, before) && HasTable(S(), fromDir)
      modifies memMap, pages
      ensures Shape() && Copying(s, S(), shift, lo, toDir + 1, m, es)
    {
      es := before;
      ghost var t := S();
      var toTable, fromTable := pages[0][toDir].frame, pages[0][fromDir].frame;
      RowSource(shift, lo, hi, m, toDir, 0);
      var j := 0;
      while j < m
        invariant 0 <= j <= m && Shape() && CopyingRow(s, S(), shift, lo, toDir, j, m, es)
        invariant Dir(S(), toDir) == Dir(t, toDir)
      {
        ghost var u := S();
        assert Dir(u, fromDir) == Dir(t, fromDir);
        if Entry(u, Slot(fromDir, j)).present { PageReady(s, u, shift, lo, hi, toDir, j, m, es); }
        RowSource(shift, lo, hi, m, toDir, j);
        var present := CopyEntry(Slot(fromDir, j), fromTable, Slot(toDir, j), toTable, j);
        if present {
          PageCopied(s, u, shift, lo, hi, toDir, j, m, es);
          es := es + [Share(Slot(fromDir, j), Slot(toDir, j))];
        } else {
          PageSkipped(s, u, shift, lo, hi, toDir, j, m, es);
        }
        j := j + 1;
      }
      RowDone(s, S(), shift, lo, toDir, m, es);
    }

    /** The body of the inner loop.  A present word is above LOW_MEM just when its frame is. */
    method CopyEntry(ghost x: Slot, fromTable: nat, ghost y: Slot, toTable: nat, j: nat) returns (present: bool)
      requires Valid() && IsSource(x) && IsSlot(y) && HasTable(S(), x.d) && HasTable(S(), y.d) && x.j == y.j == j
      requires fromTable == Dir(S(), x.d).frame && toTable == Dir(S(), y.d).frame
      requires Entry(S(), x).present ==> Enabled(S(), Share(x, y))
      modifies memMap, pages
      ensures Shape() && present == Entry(old(S()), x).present
      ensures S() == if present then Next(old(S()), Share(x, y)) else old(S())
    {
      hide Inv;
      ghost var t := S();
      InvApart(t);
      EntryInMemory(t, x);
      EntryInMemory(t, y);
      var w := pages[fromTable][j];
      present := w.present;
      if !present { return; }
      w := ReadOnly(w);
      pages[toTable] := pages[toTable][j := w];
      if w.frame >= LOW {
        CountFits(t, x);
        pages[fromTable] := pages[fromTable][j := w];
        memMap[w.frame - LOW] := memMap[w.frame - LOW] + 1;
      }
    }

    /** Maps a held page; false when there is no memory for the page table.  A page that was there is not
        given back. */
    method PutPage(f: nat, d: nat, j: nat) returns (ok: bool, ghost es: seq<Step>)
      requires Valid() && f in held && IsDir(d) && j < NPTE
      modifies `held, memMap, pages
      ensures Shape()
      ensures !old(Entry(S(), Slot(d, j))).present ==> Ran(old(S()), es, S(), d)
      ensures !old(Entry(S(), Slot(d, j))).present && ok ==>
                S().held == old(S()).held - {f} && ReadsBut(old(S()), S(), Slot(d, j), Own(Frame(old(S()), f)))
      ensures old(Entry(S(), Slot(d, j))).present ==> ok && S() == Next(old(S()), MapHeld(Slot(d, j), f))
      ensures !ok ==> S() == old(S())
    {
      hide Inv, Run, InRange;
      ghost var s := S();
      RanNothing(s, d);
      es := [];
      if !pages[0][d].present {
        var fs, t := NewTableFor(d);
        if t == 0 { return false, []; }
        TableMade(s, d, t);
        es := fs;
      }
      ghost var u := S();
      InvApart(u);
      EntryInMemory(u, Slot(d, j));
      var table := pages[0][d].frame;
      pages[table] := pages[table][j := Or7(f)];
      held := held - {f};
      assert S() == Next(u, MapHeld(Slot(d, j), f));
      if !Entry(s, Slot(d, j)).present {
        MapHeldKeeps(u, Slot(d, j), f);
        RanOne(s, es, u, MapHeld(Slot(d, j), f), d);
        es := es + [MapHeld(Slot(d, j), f)];
      }
      ok := true;
    }

    /** Gives the page at (d, j) write access, copying it first when it is shared; false when out of memory. */
    method UnWpPage(d: nat, j: nat) returns (ok: bool, ghost es: seq<Step>)
      requires Valid() && IsDir(d) && j < NPTE && Entry(S(), Slot(d, j)).present
      modifies `held, memMap, pages
      ensures Shape() && Ran(old(S()), es, S(), d) && S().held == old(S()).held
      ensures ok ==>
                Entry(S(), Slot(d, j)).present && Entry(S(), Slot(d, j)).rw
                && PageAt(S(), Slot(d, j)) == PageAt(old(S()), Slot(d, j))
                && ReadsBut(old(S()), S(), Slot(d, j), Own(PageAt(old(S()), Slot(d, j))))
      ensures !ok ==> S() == old(S())
    {
      hide Inv, Run, InRange, CountsExact;
      ghost var s := S();
      ghost var x := Slot(d, j);
      InvApart(s);
      RanNothing(s, d);
      EntryInMemory(s, x);
      var table := pages[0][d].frame;
      var w := pages[table][j];
      if w.frame >= LOW { CountFits(s, x); }
      if w.frame >= LOW && memMap[w.frame - LOW] == 1 {
        UnprotectKeeps(s, x);
        assert Enabled(s, Unprotect(x));
        pages[table] := pages[table][j := w.(rw := true)];
        assert S() == Next(s, Unprotect(x));
        RanOne(s, [], s, Unprotect(x), d);
        assert [] + [Unprotect(x)] == [Unprotect(x)];
        return true, [Unprotect(x)];
      }
      var f := GetFreePage();
      if f == 0 { return false, []; }
      RanGrab(s, f, d);
      es := CopyPage(s, f, table, d, j);
      ok := true;
    }

    /** The end of un_wp_page. */
    method CopyPage(ghost s: State, f: nat, table: nat, d: nat, j: nat) returns (ghost es: seq<Step>)
      requires Inv(s) && Enabled(s, Grab(f)) && SameTables(s, Next(s, Grab(f))) && f !in s.held
               && Ran(s, [Grab(f)], Next(s, Grab(f)), d)
      requires Valid() && S() == Next(s, Grab(f)) && Outside(s, S(), 0, 0)
      requires IsDir(d) && j < NPTE && Entry(s, Slot(d, j)).present && table == Dir(s, d).frame
      modifies `held, memMap, pages
      ensures Shape() && Ran(s, es, S(), d) && S().held == s.held
      ensures Entry(S(), Slot(d, j)) == Or7(f) && PageAt(S(), Slot(d, j)) == PageAt(s, Slot(d, j))
      ensures ReadsBut(s, S(), Slot(d, j), Own(PageAt(s, Slot(d, j))))
    {
      hide Inv, Run, InRange;
      ghost var t := S();
      ghost var x := Slot(d, j);
      InvApart(t);
      EntryInMemory(t, x);
      FreeUnnamed(s, f);
      MappedApart(t, x);
      var shared := pages[table][j].frame;
      if shared >= LOW {
        CountFits(t, x);
        memMap[shared - LOW] := memMap[shared - LOW] - 1;
      }
      ghost var p := Frame(t, shared);
      pages[table] := pages[table][j := Or7(f)];
      pages[f] := pages[shared];
      held := held - {f};
      assert S() == Next(t, CopyOut(x, f));
      CopyOutKeeps(t, x, f);
      RanOne(s, [Grab(f)], t, CopyOut(x, f), d);
      es := [Grab(f)] + [CopyOut(x, f)];
      assert p == PageAt(s, x);
    }

    /** Called for every page a system call is about to write on behalf of the task. */
    method WriteVerify(d: nat, j: nat) returns (ok: bool, ghost es: seq<Step>)
      requires Valid() && IsDir(d) && j < NPTE
      modifies `held, memMap, pages
      ensures Shape() && Ran(old(S()), es, S(), d) && S().held == old(S()).held
      ensures ok && Entry(old(S()), Slot(d, j)).present ==>
                Entry(S(), Slot(d, j)).rw && ReadsBut(old(S()), S(), Slot(d, j), Own(PageAt(old(S()), Slot(d, j))))
      ensures !ok || !Entry(old(S()), Slot(d, j)).present ==> S() == old(S())
    {
      ghost var s := S();
      RanNothing(s, d);
      if !pages[0][d].present { return true, []; }
      EntryInMemory(s, Slot(d, j));
      var w := pages[pages[0][d].frame][j];
      if w.present && !w.rw {
        ok, es := UnWpPage(d, j);
      } else {
        if w.present { assert w.frame >= LOW; }
        ok, es := true, [];
      }
    }

    /** A store instruction to a present page: a write fault first, where the entry is read-only. */
    method StoreWord(d: nat, j: nat, off: nat, w: Word) returns (ok: bool, ghost es: seq<Step>)
      requires Valid() && IsDir(d) && j < NPTE && off < NPTE && Entry(S(), Slot(d, j)).present
      modifies `held, memMap, pages
      ensures Shape() && Ran(old(S()), es, S(), d) && S().held == old(S()).held
      ensures ok ==> ReadsBut(old(S()), S(), Slot(d, j), Own(PageAt(old(S()), Slot(d, j))[off := w]))
      ensures !ok ==> S() == old(S())
    {
      hide Inv, Run, InRange;
      ghost var s := S();
      ghost var x := Slot(d, j);
      InvApart(s);
      RanNothing(s, d);
      EntryInMemory(s, x);
      es := [];
      if !pages[pages[0][d].frame][j].rw {
        ok, es := UnWpPage(d, j);
        if !ok { return; }
      }
      ghost var u := S();
      PutWord(d, j, off, w);
      RanOne(s, es, u, Store(x, off, w), d);
      es := es + [Store(x, off, w)];
      ok := true;
    }

    /** What the processor does: the dirty bit, then the word. */
    method PutWord(d: nat, j: nat, off: nat, w: Word)
      requires Valid() && Enabled(S(), Store(Slot(d, j), off, w)) && IsDir(d)
      modifies pages
      ensures Valid() && S() == Next(old(S()), Store(Slot(d, j), off, w))
      ensures ReadsBut(old(S()), S(), Slot(d, j), Own(PageAt(old(S()), Slot(d, j))[off := w]))
    {
      hide Inv;
      ghost var u := S();
      ghost var x := Slot(d, j);
      InvApart(u);
      EntryInMemory(u, x);
      WritableApart(u, x);
      StoreKeeps(u, x, off, w);
      var table := pages[0][d].frame;
      var e := pages[table][j];
      pages[table] := pages[table][j := e.(dirty := true)];
      pages[e.frame] := pages[e.frame][off := w];
      assert S() == Next(u, Store(x, off, w));
    }

    method GetEmptyPage(d: nat, j: nat) returns (ok: bool, ghost es: seq<Step>)
      requires Valid() && IsDir(d) && j < NPTE && !Entry(S(), Slot(d, j)).present
      modifies `held, memMap, pages
      ensures Shape() && Ran(old(S()), es, S(), d) && S().held == old(S()).held
      ensures ok ==> ReadsBut(old(S()), S(), Slot(d, j), Own(ZeroPage()))
      ensures !ok ==> ReadsSame(old(S()), S()) && S().memMap == old(S()).memMap
    {
      hide Inv, Run, InRange;
      ghost var s := S();
      RanNothing(s, d);
      var f := GetFreePage();
      if f == 0 { return false, []; }
      RanGrab(s, f, d);
      ghost var t := S();
      ghost var fs;
      ok, fs := PutOrFree(f, d, j);
      RanBoth(s, [Grab(f)], t, fs, S(), d);
      es := [Grab(f)] + fs;
    }

    /** Maps a held page, or gives it back when there is no memory for the page table. */
    method PutOrFree(f: nat, d: nat, j: nat) returns (ok: bool, ghost es: seq<Step>)
      requires Valid() && f in held && IsDir(d) && j < NPTE && !Entry(S(), Slot(d, j)).present
      modifies `held, memMap, pages
      ensures Shape() && Ran(old(S()), es, S(), d) && S().held == old(S()).held - {f}
      ensures ok ==> ReadsBut(old(S()), S(), Slot(d, j), Own(Frame(old(S()), f)))
      ensures !ok ==> ReadsSame(old(S()), S()) && S().memMap == Uncount(old(S()), f).memMap
    {
      hide Inv, Run, InRange;
      ghost var s := S();
      ok, es := PutPage(f, d, j);
      if !ok {
        FreeHeld(f);
        RanOne(s, es, s, Release(f), d);
        es := es + [Release(f)];
      }
    }

    /** The end of do_no_page: a free page is filled from the executable and mapped, or given back. */
    method LoadPage(d: nat, j: nat, p: Page) returns (ok: bool, ghost es: seq<Step>)
      requires Valid() && IsDir(d) && j < NPTE && !Entry(S(), Slot(d, j)).present
      modifies `held, memMap, pages
      ensures Shape() && Ran(old(S()), es, S(), d) && S().held == old(S()).held
      ensures ok ==> ReadsBut(old(S()), S(), Slot(d, j), Own(p))
      ensures !ok ==> ReadsSame(old(S()), S()) && S().memMap == old(S()).memMap
    {
      hide Inv, Run, InRange;
      ghost var s := S();
      RanNothing(s, d);
      var f := GetFreePage();
      if f == 0 { return false, []; }
      GrabOutside(s, f);
      ghost var t := S();
      pages[f] := p;
      assert S() == Next(t, Fill(f, p));
      Filled(s, t, f, p, d);
      ghost var u := S();
      ghost var fs;
      ok, fs := PutOrFree(f, d, j);
      RanBoth(s, [Grab(f), Fill(f, p)], u, fs, S(), d);
      es := [Grab(f), Fill(f, p)] + fs;
    }

    /** Shares the clean page j of row `from` (another task's) with row `to` of the current task. */
    method TryToShare(from: nat, to: nat, j: nat) returns (r: ShareResult, ghost es: seq<Step>)
      requires Valid() && IsDir(from) && IsDir(to) && from != to && from % AREA == to % AREA && j < NPTE
      modifies `held, memMap, pages
      ensures Shape() && Ran(old(S()), es, S(), to) && S().held == old(S()).held
      ensures r == Shared ==>
                && !Entry(old(S()), Slot(from, j)).dirty && ReadPage(old(S()), Slot(from, j)).Own?
                && ReadsBut(old(S()), S(), Slot(to, j), ReadPage(old(S()), Slot(from, j)))
      ensures r != Shared ==> S() == old(S())
      ensures r == Twice ==> Entry(old(S()), Slot(to, j)).present
    {
      hide Inv, Run, InRange;
      ghost var s := S();
      ghost var x, y := Slot(from, j), Slot(to, j);
      InvApart(s);
      RanNothing(s, to);
      if !pages[0][from].present { return Unshared, []; }
      EntryInMemory(s, x);
      var fromTable := pages[0][from].frame;
      var w := pages[fromTable][j];
      assert w == Entry(s, x);
      if !w.present || w.dirty { return Unshared, []; }
      if w.frame >= highMemory || w.frame < LOW { return Unshared, []; }
      es := [];
      if !pages[0][to].present {
        var fs, t := NewTableFor(to);
        if t == 0 { return NoRoom, []; }
        TableMade(s, to, t);
        es := fs;
      }
      ghost var u := S();
      InvApart(u);
      EntryInMemory(u, y);
      var toTable := pages[0][to].frame;
      if pages[toTable][j].present { return Twice, es; }
      ShareEntry(x, fromTable, y, toTable, j);
      RanOne(s, es, u, Share(x, y), to);
      es := es + [Share(x, y)];
      r := Shared;
    }

    /** The end of try_to_share. */
    method ShareEntry(ghost x: Slot, fromTable: nat, ghost y: Slot, toTable: nat, j: nat)
      requires Valid() && Enabled(S(), Share(x, y)) && IsSlot(x) && x.j == y.j == j && Entry(S(), x).frame >= LOW
      requires HasTable(S(), x.d) && fromTable == Dir(S(), x.d).frame && toTable == Dir(S(), y.d).frame
      modifies memMap, pages
      ensures Shape() && S() == Next(old(S()), Share(x, y)) && S().held == old(S()).held
      ensures ReadsBut(old(S()), S(), y, ReadPage(old(S()), x))
    {
      hide Inv;
      ghost var u := S();
      InvApart(u);
      EntryInMemory(u, x);
      EntryInMemory(u, y);
      CountFits(u, x);
      ShareOrder(u, x, y);
      ShareKeeps(u, x, y);
      var w := pages[fromTable][j];
      pages[fromTable] := pages[fromTable][j := ReadOnly(w)];
      pages[toTable] := pages[toTable][j := pages[fromTable][j]];
      memMap[w.frame - LOW] := memMap[w.frame - LOW] + 1;
    }

    /** share_page: looks for the page in every task that runs the same executable. */
    method SharePage(cur: nat, i: nat, j: nat, users: nat, twins: seq<bool>)
      returns (r: ShareResult, ghost es: seq<Step>)
      requires Valid() && 1 <= cur < 64 && i < AREA && j < NPTE && |twins| == 64 && !twins[cur]
      modifies `held, memMap, pages
      ensures Shape() && Ran(old(S()), es, S(), cur * AREA + i) && S().held == old(S()).held
      ensures r == Shared ==> users >= 2 && CopiedFromTwin(old(S()), S(), cur, i, j, twins)
      ensures r != Shared ==> S() == old(S())
      ensures r == Twice ==> Entry(old(S()), Slot(cur * AREA + i, j)).present
    {
      hide Inv, Run, InRange, ReadsBut;
      RanNothing(S(), cur * AREA + i);
      if users < 2 { return Unshared, []; }
      ghost var s := S();
      var p := 63;
      while p > 0
        invariant 0 <= p <= 63 && Valid() && S() == s
      {
        if twins[p] {
          assert IsDir(p * AREA + i) && IsDir(cur * AREA + i);
          r, es := TryToShare(p * AREA + i, cur * AREA + i, j);
          if r != Unshared { return; }
        }
        p := p - 1;
      }
      r, es := Unshared, [];
    }

    /** A page fault of task cur.  `inFile` says whether the page lies in the executable's text or
        data; `image` is what the executable holds there, zero-padded. */
    method DoNoPage(cur: nat, i: nat, j: nat, inFile: bool, users: nat, twins: seq<bool>, image: Page)
      returns (r: Outcome, ghost es: seq<Step>)
      requires Valid() && 1 <= cur < 64 && i < AREA && j < NPTE && |twins| == 64 && !twins[cur]
      requires !Entry(S(), Slot(cur * AREA + i, j)).present
      modifies `held, memMap, pages
      ensures Shape() && Ran(old(S()), es, S(), cur * AREA + i) && S().held == old(S()).held
      ensures r == Done ==>
                || ReadsBut(old(S()), S(), Slot(cur * AREA + i, j), Own(if inFile then image else ZeroPage()))
                || (inFile && CopiedFromTwin(old(S()), S(), cur, i, j, twins))
      ensures r != Done ==> r == NoMemory && ReadsSame(old(S()), S()) && S().memMap == old(S()).memMap
    {
      var ok;
      if !inFile {
        ok, es := GetEmptyPage(cur * AREA + i, j);
      } else {
        var q;
        q, es := SharePage(cur, i, j, users, twins);
        if q == Shared { return Done, es; }
        if q == NoRoom { return NoMemory, es; }
        ok, es := LoadPage(cur * AREA + i, j, image);
      }
      r := if ok then Done else NoMemory;
    }

    // ---- kernel/fork.c ----

    /** copy_mem: the child nr gets its parent's pages or nothing at all. */
    method CopyMem(nr: nat, oldBase: nat, limit: nat) returns (r: Outcome, ghost es: seq<Step>)
      requires Valid() && 1 <= nr < 64 && Unmapped(S(), nr * AREA, (nr + 1) * AREA)
      requires oldBase % TASKSPAN == 0 && oldBase < WORDS && oldBase != nr * TASKSPAN
      requires limit <= if oldBase == 0 then DIRSPAN else TASKSPAN
      modifies `held, memMap, pages
      ensures Valid() && Run(old(S()), es, S()) && InRange(es, nr * AREA, (nr + 1) * AREA) && S().held == old(S()).held
      ensures r == Done ==>
                var lo, hi := nr * AREA, nr * AREA + Dirs(limit);
                Outside(old(S()), S(), lo, hi) && Copied(old(S()), S(), oldBase / DIRSPAN - lo, lo, hi, Pages(oldBase))
      ensures r != Done ==> r == NoMemory && S().memMap == old(S()).memMap && ReadsSame(old(S()), S())
                            && Unmapped(S(), nr * AREA, nr * AREA + Dirs(limit))
    {
      ghost var s := S();
      var newBase := nr * TASKSPAN;
      TaskGeometry(nr, oldBase, limit);
      r, es := CopyPageTables(oldBase, newBase, limit);
      if r != Done {
        ghost var t := S();
        var q, fs := FreePageTables(newBase, limit);
        RunFrees(s, es, t, fs, S(), nr * AREA, nr * AREA + Dirs(limit));
        es := es + fs;
      }
    }

    /** The memory of copy_process: a frame for the task structure, then the address space. */
    method CopyProcess(nr: nat, oldBase: nat, limit: nat) returns (r: Outcome, p: nat, ghost es: seq<Step>)
      requires Valid() && 1 <= nr < 64 && Unmapped(S(), nr * AREA, (nr + 1) * AREA)
      requires oldBase % TASKSPAN == 0 && oldBase < WORDS && oldBase != nr * TASKSPAN
      requires limit <= if oldBase == 0 then DIRSPAN else TASKSPAN
      modifies `held, memMap, pages
      ensures Valid() && Run(old(S()), es, S()) && InRange(es, nr * AREA, (nr + 1) * AREA)
      ensures r == Done ==>
                var lo, hi := nr * AREA, nr * AREA + Dirs(limit);
                && p !in old(S()).held && S().held == old(S()).held + {p}
                && Outside(old(S()), S(), lo, hi)
                && Copied(old(S()), S(), oldBase / DIRSPAN - lo, lo, hi, Pages(oldBase))
                && BytesCopied(old(S()), S(), oldBase, nr * 0x400_0000, limit)
      ensures r != Done ==>
                r == NoMemory && S().memMap == old(S()).memMap && ReadsSame(old(S()), S())
                && S().held == old(S()).held
    {
      hide BytesCopied;
      ghost var s := S();
      es := [];
      p := GetFreePage();
      if p == 0 { return NoMemory, p, es; }
      GrabOutside(s, p);
      ghost var t := S();
      assert Unmapped(t, nr * AREA, (nr + 1) * AREA) by {
        forall d: nat | nr * AREA <= d < (nr + 1) * AREA ensures !HasTable(t, d) {
          assert !HasTable(s, d) && Dir(t, d) == Dir(s, d);
        }
      }
      ghost var fs;
      r, fs := CopyMem(nr, oldBase, limit);
      ForkRun(s, Grab(p), t, fs, S(), nr * AREA, (nr + 1) * AREA);
      es := [Grab(p)] + fs;
      if r != Done {
        ghost var u := S();
        FreeHeld(p);
        QuietStep(s, es, u, Release(p), nr * AREA, (nr + 1) * AREA);
        es := es + [Release(p)];
        Released(s, t, u, S(), p);
      } else {
        CopiedLater(s, t, S(), nr, oldBase, limit);
        ForkedBytes(s, S(), nr, oldBase, limit);
      }
    }
  }
}
