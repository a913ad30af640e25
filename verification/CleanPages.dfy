/** The flags of a page-table entry, and what the dirty bit is for: a page that is clean still holds what was
    put there, so another task that runs the same executable may share it (try_to_share in mm/memory.c). */
module CleanPages {
  import opened Options
  import opened Paging
  import opened PagingRuns
  import opened PagingSteps

  /** Sharing clears the write bit and nothing else: the copy has every other bit of the original, the dirty
      bit included, and so has the original, which changes only when its frame is counted. */
  lemma SharedEntries(s: State, x: Slot, y: Slot)
    requires Inv(s) && Enabled(s, Share(x, y))
    ensures var t := Next(s, Share(x, y)); var a, b := Entry(s, x), Entry(t, y);
            && b.present && !b.rw && b.frame == a.frame && b.user == a.user && b.dirty == a.dirty && b.rest == a.rest
    ensures var t := Next(s, Share(x, y)); var a, b := Entry(s, x), Entry(t, x);
            if a.frame < LOW then b == a
            else b.present && !b.rw && b.frame == a.frame && b.user == a.user && b.dirty == a.dirty && b.rest == a.rest
  {
    ShareKeeps(s, x, y);
  }

  /** A page that is mapped, or copied out on a write fault, is present, writable, the user's and clean. */
  lemma NewEntry(s: State, x: Slot, f: nat, e: Step)
    requires Inv(s) && Enabled(s, e) && (e == MapHeld(x, f) || e == CopyOut(x, f))
    ensures var b := Entry(Next(s, e), x);
            b.present && b.rw && b.user && !b.dirty && b.rest == 0 && b.frame == f
  {
    if e == MapHeld(x, f) { MapHeldKeeps(s, x, f); } else { CopyOutKeeps(s, x, f); }
  }

  /** Write access comes back without touching another bit, and a store leaves its mark. */
  lemma ChangedBits(s: State, x: Slot, off: nat, w: Word)
    requires Inv(s)
    ensures Enabled(s, Unprotect(x)) ==>
              var a, b := Entry(s, x), Entry(Next(s, Unprotect(x)), x);
              && b.present && b.rw && b.frame == a.frame && b.user == a.user && b.dirty == a.dirty && b.rest == a.rest
    ensures Enabled(s, Store(x, off, w)) ==>
              var a, b := Entry(s, x), Entry(Next(s, Store(x, off, w)), x);
              && b.present && b.rw && b.frame == a.frame && b.user == a.user && b.dirty && b.rest == a.rest
  {
    if Enabled(s, Unprotect(x)) { UnprotectKeeps(s, x); }
    if Enabled(s, Store(x, off, w)) { StoreKeeps(s, x, off, w); }
  }

  /** x names the counted frame f. */
  predicate Maps(s: State, x: Slot, f: nat) { Entry(s, x).present && Entry(s, x).frame == f && f >= LOW }

  /** No change to the pager's state takes a dirty bit away or alters a page behind a clean entry. */
  lemma CleanStep(s: State, e: Step, x: Slot, f: nat)
    requires Inv(s) && Enabled(s, e) && IsSlot(x) && Maps(s, x, f) && Maps(Next(s, e), x, f)
    requires !Entry(Next(s, e), x).dirty
    ensures !Entry(s, x).dirty && Frame(Next(s, e), f) == Frame(s, f)
  {
    hide Inv, Next, Frame, HasTable, ReadPage;
    var t := Next(s, e);
    match e {
      case Grab(g) => GrabKeeps(s, g);
      case Release(g) => ReleaseKeeps(s, g);
      case Fill(g, p) => FillKeeps(s, g, p);
      case MakeTable(d, g) => MakeTableKeeps(s, d, g);
      case DropTable(d) => DropTableKeeps(s, d);
      case Unmap(y) => UnmapKeeps(s, y);
      case Share(y, z) =>
        SharedEntries(s, y, z);
        ShareKeeps(s, y, z);
      case MapHeld(y, g) => MapHeldKeeps(s, y, g);
      case Unprotect(y) => UnprotectKeeps(s, y);
      case CopyOut(y, g) =>
        HeldCounted(s, g);
        CopyOutKeeps(s, y, g);
      case Store(y, off, w) => StoreKeeps(s, y, off, w);
    }
    SamePage(s, t, x, f);
  }

  lemma SamePage(s: State, t: State, x: Slot, f: nat)
    requires Maps(s, x, f) && Maps(t, x, f) && ReadPage(t, x) == ReadPage(s, x)
    ensures Frame(t, f) == Frame(s, f)
  {}

  // ---- Whole runs ----

  /** x names f all the way. */
  ghost predicate Stays(s: State, es: seq<Step>, x: Slot, f: nat)
    decreases |es|
  {
    Maps(s, x, f) && (es == [] || Stays(Next(s, es[0]), es[1..], x, f))
  }

  lemma {:induction false} CleanRun(s: State, es: seq<Step>, t: State, x: Slot, f: nat)
    requires Inv(s) && Run(s, es, t) && IsSlot(x) && Stays(s, es, x, f) && !Entry(t, x).dirty
    ensures !Entry(s, x).dirty && Frame(t, f) == Frame(s, f)
    decreases |es|
  {
    if es != [] {
      StepKeeps(s, es[0]);
      CleanRun(Next(s, es[0]), es[1..], t, x, f);
      CleanStep(s, es[0], x, f);
    }
  }

  /** A clean page reads as it did when it was put there, whatever has happened since: this is what makes it
      fit to be shared as the executable's own. */
  lemma CleanAsPut(s: State, x: Slot, f: nat, es: seq<Step>, t: State)
    requires Inv(s) && Enabled(s, MapHeld(x, f)) && Run(Next(s, MapHeld(x, f)), es, t)
    requires Stays(Next(s, MapHeld(x, f)), es, x, f) && !Entry(t, x).dirty
    ensures ReadPage(t, x) == Own(Frame(s, f))
  {
    MapHeldKeeps(s, x, f);
    CleanRun(Next(s, MapHeld(x, f)), es, t, x, f);
    StaysAtEnd(Next(s, MapHeld(x, f)), es, t, x, f);
  }

  /** The same for the page a write fault has copied out: it is still what the shared page was. */
  lemma CleanAsCopied(s: State, x: Slot, f: nat, es: seq<Step>, t: State)
    requires Inv(s) && Enabled(s, CopyOut(x, f)) && Run(Next(s, CopyOut(x, f)), es, t)
    requires Stays(Next(s, CopyOut(x, f)), es, x, f) && !Entry(t, x).dirty
    ensures ReadPage(t, x) == Own(Frame(s, Entry(s, x).frame))
  {
    CopyOutKeeps(s, x, f);
    CleanRun(Next(s, CopyOut(x, f)), es, t, x, f);
    StaysAtEnd(Next(s, CopyOut(x, f)), es, t, x, f);
  }

  /** And for a page that came by sharing: if it is clean at the end, it was clean when it was shared, and is
      still what it was then. */
  lemma CleanAsShared(s: State, x: Slot, y: Slot, es: seq<Step>, t: State)
    requires Inv(s) && Enabled(s, Share(x, y)) && Entry(s, x).frame >= LOW && Run(Next(s, Share(x, y)), es, t)
    requires Stays(Next(s, Share(x, y)), es, y, Entry(s, x).frame) && !Entry(t, y).dirty
    ensures !Entry(s, x).dirty && ReadPage(t, y) == Own(Frame(s, Entry(s, x).frame))
  {
    var f, u := Entry(s, x).frame, Next(s, Share(x, y));
    ShareKeeps(s, x, y);
    SharedEntries(s, x, y);
    CleanRun(u, es, t, y, f);
    StaysAtEnd(u, es, t, y, f);
  }

  lemma {:induction false} StaysAtEnd(s: State, es: seq<Step>, t: State, x: Slot, f: nat)
    requires Run(s, es, t) && Stays(s, es, x, f)
    ensures Maps(t, x, f)
    decreases |es|
  {
    if es != [] { StaysAtEnd(Next(s, es[0]), es[1..], t, x, f); }
  }
}
