/** The paging state of mm/memory.c as a value, and the smallest indivisible changes the
    kernel makes to it.  Physical memory is untyped: page directory, page tables and user pages
    all live in the same 4096 frames, so nothing but the invariant keeps a user write out of a
    page table. */
module Paging {
  import opened Options

  const LOW := 256          // LOW_MEM >> 12: frames below it are never counted
  const NFRAMES := 4096     // (LOW_MEM + PAGING_MEMORY) >> 12
  const USED := 100         // mem_map value of a frame that is not for paging
  const NDIR := 1024
  const NPTE := 1024
  const AREA := 16          // directory entries per task: 64 MB

  /** A 32-bit word, split the way the MMU splits it: the upper 20 bits and the 12 flag bits. */
  datatype Word = Word(frame: nat, present: bool, rw: bool, user: bool, dirty: bool, rest: nat)

  const ZERO := Word(0, false, false, false, false, 0)

  type Page = p: seq<Word> | |p| == NPTE witness seq(NPTE, _ => ZERO)

  function ZeroPage(): Page { seq(NPTE, _ => ZERO) }

  /** `x | 7` */
  function Or7(f: nat): Word { Word(f, true, true, true, false, 0) }

  /** `x & ~2` */
  function ReadOnly(w: Word): Word { w.(rw := false) }

  type Memory = m: seq<Page> | |m| == NFRAMES witness seq(NFRAMES, _ => ZeroPage())

  type Counts = c: seq<nat> | |c| == NFRAMES - LOW witness seq(NFRAMES - LOW, _ => 0)

  /** `start` and `high` bound the frames that mem_init hands to the pager; `held` are the frames
      some kernel path got from get_free_page and has neither mapped nor freed yet. */
  datatype State = State(start: nat, high: nat, memMap: Counts, mem: Memory, held: set<nat>)

  datatype Slot = Slot(d: nat, j: nat)

  predicate IsDir(d: nat) { AREA <= d < NDIR }

  predicate IsSlot(x: Slot) { IsDir(x.d) && x.j < NPTE }

  function Task(x: Slot): nat { x.d / AREA }

  predicate Managed(s: State, f: nat) { LOW <= s.start <= f < s.high <= NFRAMES }

  function Count(s: State, f: nat): nat
    requires LOW <= f < NFRAMES
  {
    s.memMap[f - LOW]
  }

  // ---- Reading the page tables ----

  function Dir(s: State, d: nat): Word { if d < NDIR then s.mem[0][d] else ZERO }

  predicate HasTable(s: State, d: nat) { Dir(s, d).present }

  function Frame(s: State, f: nat): Page { if f < NFRAMES then s.mem[f] else ZeroPage() }

  function Entry(s: State, x: Slot): Word {
    if x.j < NPTE && HasTable(s, x.d) then Frame(s, Dir(s, x.d).frame)[x.j] else ZERO
  }

  /** The frame a linear page is mapped to. */
  function Where(s: State, x: Slot): Option<nat> {
    if Entry(s, x).present then Some(Entry(s, x).frame) else None
  }

  /** What a process reads at a linear page: nothing, kernel memory below LOW_MEM that every child
      of task 0 sees in place (down to the page directory in frame 0), or a page of its own. */
  datatype View = Absent | Kernel(frame: nat) | Own(page: Page)

  function ReadPage(s: State, x: Slot): View {
    if !Entry(s, x).present then Absent
    else if Entry(s, x).frame < LOW then Kernel(Entry(s, x).frame)
    else Own(Frame(s, Entry(s, x).frame))
  }

  function AllSlots(): set<Slot> {
    set d: nat, j: nat | AREA <= d < NDIR && j < NPTE :: Slot(d, j)
  }

  ghost function PteRefs(s: State, f: nat): set<Slot> {
    set x | x in AllSlots() && Where(s, x) == Some(f)
  }

  ghost function DirRefs(s: State, f: nat): set<nat> {
    set d: nat | AREA <= d < NDIR && HasTable(s, d) && Dir(s, d).frame == f
  }

  lemma SlotsAll(x: Slot)
    ensures x in AllSlots() <==> IsSlot(x)
  {
    if IsSlot(x) { assert x == Slot(x.d, x.j); }
  }

  // ---- The invariant ----

  /** Every count names exactly the references there are. */
  ghost predicate CountExact(s: State, f: nat)
    requires LOW <= f < NFRAMES
  {
    Count(s, f) == |PteRefs(s, f)| + |DirRefs(s, f)| + (if f in s.held then 1 else 0)
                   + (if Managed(s, f) then 0 else USED)
  }

  ghost predicate CountsExact(s: State) {
    forall f | LOW <= f < NFRAMES :: CountExact(s, f)
  }

  /** A page table is a managed frame that nothing else names. */
  ghost predicate TablesPrivate(s: State) {
    && (forall d | IsDir(d) && HasTable(s, d) :: Managed(s, Dir(s, d).frame) && Dir(s, d).frame !in s.held)
    && (forall d, e | IsDir(d) && IsDir(e) && HasTable(s, d) && HasTable(s, e) && d != e ::
          Dir(s, d).frame != Dir(s, e).frame)
    && (forall d, x | IsDir(d) && HasTable(s, d) && IsSlot(x) && Entry(s, x).present ::
          Entry(s, x).frame != Dir(s, d).frame)
  }

  /** A user page is a low frame or a managed frame no kernel path still owns. */
  ghost predicate TargetsOwned(s: State) {
    forall x | IsSlot(x) && Entry(s, x).present ::
      Entry(s, x).frame < LOW || (Managed(s, Entry(s, x).frame) && Entry(s, x).frame !in s.held)
  }

  /** A writable mapping is the only mapping of its frame. */
  ghost predicate WritableAlone(s: State) {
    forall x, y | IsSlot(x) && IsSlot(y) && Entry(s, x).present && Entry(s, y).present
      && Entry(s, x).frame == Entry(s, y).frame && Entry(s, x).rw ::
      Entry(s, x).frame >= LOW && x == y
  }

  /** Counted frames appear at one offset only, whatever task maps them. */
  ghost predicate SameOffset(s: State) {
    forall x, y | IsSlot(x) && IsSlot(y) && Entry(s, x).present && Entry(s, y).present
      && Entry(s, x).frame == Entry(s, y).frame && Entry(s, x).frame >= LOW ::
      x.d % AREA == y.d % AREA && x.j == y.j
  }

  /** The part of the kernel's identity map that the first fork shares (160 pages). */
  ghost predicate KernelMap(s: State) {
    && HasTable(s, 0) && 0 < Dir(s, 0).frame < LOW
    && forall j: nat | j < 160 :: Entry(s, Slot(0, j)).frame < LOW
  }

  ghost predicate Inv(s: State) {
    && LOW <= s.start <= s.high <= NFRAMES
    && (forall f | f in s.held :: Managed(s, f))
    && KernelMap(s)
    && TablesPrivate(s)
    && TargetsOwned(s)
    && WritableAlone(s)
    && SameOffset(s)
    && CountsExact(s)
  }

  // ---- Indivisible changes ----

  function SetCount(s: State, f: nat, n: nat): State
    requires LOW <= f < NFRAMES
  {
    State(s.start, s.high, s.memMap[f - LOW := n], s.mem, s.held)
  }

  /** mem_map[f]-- for counted frames */
  function Uncount(s: State, f: nat): State {
    if LOW <= f < NFRAMES && Count(s, f) > 0 then SetCount(s, f, Count(s, f) - 1) else s
  }

  function SetFrame(s: State, f: nat, p: Page): State {
    if f < NFRAMES then State(s.start, s.high, s.memMap, s.mem[f := p], s.held) else s
  }

  function Take(s: State, f: nat): State { State(s.start, s.high, s.memMap, s.mem, s.held + {f}) }

  function Give(s: State, f: nat): State { State(s.start, s.high, s.memMap, s.mem, s.held - {f}) }

  function SetDir(s: State, d: nat, w: Word): State {
    if d < NDIR then SetFrame(s, 0, s.mem[0][d := w]) else s
  }

  function SetEntry(s: State, x: Slot, w: Word): State {
    if x.j < NPTE then SetFrame(s, Dir(s, x.d).frame, Frame(s, Dir(s, x.d).frame)[x.j := w]) else s
  }

  datatype Step =
    | Grab(f: nat)                       // get_free_page
    | Release(f: nat)                    // free_page of a held frame
    | Fill(f: nat, p: Page)              // the kernel writes a held frame
    | MakeTable(d: nat, f: nat)          // a held, zeroed frame becomes a page table
    | DropTable(d: nat)                  // an emptied page table is freed
    | Unmap(x: Slot)                     // free_page of a mapped frame, entry zeroed
    | Share(x: Slot, y: Slot)            // the entry of x is copied to y, both read-only
    | MapHeld(x: Slot, f: nat)           // a held frame is put at x
    | Unprotect(x: Slot)                 // last reference: write access is given back
    | CopyOut(x: Slot, f: nat)           // the shared page of x is copied to the held frame f
    | Store(x: Slot, off: nat, w: Word)  // a user write through a writable entry

  /** Where a shared entry comes from: another task, or the low memory of task 0. */
  predicate IsSource(x: Slot) {
    IsSlot(x) || (x.d == 0 && x.j < 160)
  }

  predicate Empty(p: Page) { forall j | 0 <= j < NPTE :: !p[j].present }

  ghost predicate Enabled(s: State, e: Step) {
    match e
    case Grab(f) => LOW <= f < NFRAMES && Count(s, f) == 0
    case Release(f) => f in s.held
    case Fill(f, _) => f in s.held
    case MakeTable(d, f) => IsDir(d) && !HasTable(s, d) && f in s.held && Empty(Frame(s, f))
    case DropTable(d) => IsDir(d) && HasTable(s, d) && Empty(Frame(s, Dir(s, d).frame))
    case Unmap(x) => IsSlot(x) && HasTable(s, x.d)
    case Share(x, y) => IsSource(x) && IsSlot(y) && x.d % AREA == y.d % AREA && x.j == y.j
                        && Entry(s, x).present && HasTable(s, y.d) && !Entry(s, y).present
    case MapHeld(x, f) => IsSlot(x) && HasTable(s, x.d) && !Entry(s, x).present && f in s.held
    case Unprotect(x) => IsSlot(x) && Entry(s, x).present
                         && LOW <= Entry(s, x).frame < NFRAMES && Count(s, Entry(s, x).frame) == 1
    case CopyOut(x, f) => IsSlot(x) && Entry(s, x).present && f in s.held
    case Store(x, off, _) => IsSlot(x) && off < NPTE && Entry(s, x).present && Entry(s, x).rw
  }

  function Next(s: State, e: Step): State {
    match e
    case Grab(f) =>
      if LOW <= f < NFRAMES then Take(SetFrame(SetCount(s, f, 1), f, ZeroPage()), f) else s
    case Release(f) => Give(Uncount(s, f), f)
    case Fill(f, p) => SetFrame(s, f, p)
    case MakeTable(d, f) => Give(SetDir(s, d, Or7(f)), f)
    case DropTable(d) => SetDir(Uncount(s, Dir(s, d).frame), d, ZERO)
    case Unmap(x) =>
      SetEntry(if Entry(s, x).present then Uncount(s, Entry(s, x).frame) else s, x, ZERO)
    case Share(x, y) =>
      var w := ReadOnly(Entry(s, x));
      var t := SetEntry(s, y, w);
      if LOW <= w.frame < NFRAMES then SetCount(SetEntry(t, x, w), w.frame, Count(s, w.frame) + 1) else t
    case MapHeld(x, f) => Give(SetEntry(s, x, Or7(f)), f)
    case Unprotect(x) => SetEntry(s, x, Entry(s, x).(rw := true))
    case CopyOut(x, f) =>
      var g := Entry(s, x).frame;
      Give(SetFrame(SetEntry(Uncount(s, g), x, Or7(f)), f, Frame(s, g)), f)
    case Store(x, off, w) =>
      if off < NPTE then
        var g := Entry(s, x).frame;
        SetFrame(SetEntry(s, x, Entry(s, x).(dirty := true)), g, Frame(s, g)[off := w])
      else s
  }
}
