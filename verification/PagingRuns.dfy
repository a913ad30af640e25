/** What the pager promises over every run of its indivisible changes, in whatever order the tasks
    and their sleeps interleave them: the counts stay exact and small, and the physical memory with
    its shared, copied-on-write frames is a correct implementation of separate address spaces. */
module PagingRuns {
  import opened Options
  import opened Paging
  import opened PagingSteps

  lemma StepKeeps(s: State, e: Step)
    requires Inv(s) && Enabled(s, e)
    ensures Inv(Next(s, e))
  {
    match e
    case Grab(f) => GrabKeeps(s, f);
    case Release(f) => ReleaseKeeps(s, f);
    case Fill(f, p) => FillKeeps(s, f, p);
    case MakeTable(d, f) => MakeTableKeeps(s, d, f);
    case DropTable(d) => DropTableKeeps(s, d);
    case Unmap(x) => UnmapKeeps(s, x);
    case Share(x, y) => ShareKeeps(s, x, y);
    case MapHeld(x, f) => MapHeldKeeps(s, x, f);
    case Unprotect(x) => UnprotectKeeps(s, x);
    case CopyOut(x, f) => CopyOutKeeps(s, x, f);
    case Store(x, off, w) => StoreKeeps(s, x, off, w);
  }

  // ---- Runs ----

  ghost predicate Run(s: State, es: seq<Step>, t: State)
    decreases |es|
  {
    if es == [] then t == s
    else Enabled(s, es[0]) && Run(Next(s, es[0]), es[1..], t)
  }

  lemma {:induction false} RunKeeps(s: State, es: seq<Step>, t: State)
    requires Inv(s) && Run(s, es, t)
    ensures Inv(t)
    decreases |es|
  {
    if es != [] {
      StepKeeps(s, es[0]);
      RunKeeps(Next(s, es[0]), es[1..], t);
    }
  }

  lemma {:induction false} RunThen(s: State, es: seq<Step>, t: State, fs: seq<Step>, u: State)
    requires Run(s, es, t) && Run(t, fs, u)
    ensures Run(s, es + fs, u)
    decreases |es|
  {
    hide Enabled, Next;
    if es == [] {
      assert es + fs == fs;
    } else {
      RunThen(Next(s, es[0]), es[1..], t, fs, u);
      assert (es + fs)[1..] == es[1..] + fs;
    }
  }

  lemma RunStep(s: State, es: seq<Step>, t: State, e: Step)
    requires Run(s, es, t) && Enabled(t, e)
    ensures Run(s, es + [e], Next(t, e))
  {
    assert Run(Next(t, e), [], Next(t, e));
    assert [e][1..] == [];
    RunThen(s, es, t, [e], Next(t, e));
  }

  // ---- Counts over every run ----

  lemma {:induction false} SlotsOfOneFrame(a: set<Slot>)
    requires forall x | x in a :: IsSlot(x)
    requires forall x, y | x in a && y in a :: x.d % AREA == y.d % AREA && x.j == y.j
    ensures |a| == |set x | x in a :: Task(x)|
    ensures |a| <= 63
  {
    var tasks := set x | x in a :: Task(x);
    TasksDistinct(a);
    assert tasks <= UpTo(63) by {
      forall n | n in tasks ensures n in UpTo(63) { InUpTo(63, n); }
    }
    SubsetSize(tasks, UpTo(63));
  }

  /** {1, ..., n} */
  ghost function UpTo(n: nat): (r: set<nat>)
    ensures |r| == n && forall k | k in r :: k <= n
  {
    if n == 0 then {} else UpTo(n - 1) + {n}
  }

  lemma {:induction false} InUpTo(n: nat, k: nat)
    requires 1 <= k <= n
    ensures k in UpTo(n)
  {
    if k < n { InUpTo(n - 1, k); }
  }

  lemma {:induction false} TasksDistinct(a: set<Slot>)
    requires forall x, y | x in a && y in a :: x.d % AREA == y.d % AREA && x.j == y.j
    ensures |a| == |set x | x in a :: Task(x)|
  {
    if a != {} {
      var x :| x in a;
      var b := a - {x};
      TasksDistinct(b);
      var was := set y | y in b :: Task(y);
      var now := set y | y in a :: Task(y);
      forall y | y in b ensures Task(y) != Task(x) {
        assert y != x;
      }
      assert now == was + {Task(x)};
    }
  }

  /** Every frame has one role: it is out of the pager's reach, free, held by a kernel path, one
      task's page table, or a user page of at most 63 tasks, and its count says which. */
  lemma RolesOf(s: State, f: nat)
    requires Inv(s) && LOW <= f < NFRAMES
    ensures !Managed(s, f) ==> Count(s, f) == USED && PteRefs(s, f) == {} && DirRefs(s, f) == {} && f !in s.held
    ensures Managed(s, f) ==> Count(s, f) <= 63
    ensures f in s.held ==> Count(s, f) == 1 && PteRefs(s, f) == {} && DirRefs(s, f) == {}
    ensures DirRefs(s, f) != {} ==> Count(s, f) == 1 && PteRefs(s, f) == {} && |DirRefs(s, f)| == 1
    ensures PteRefs(s, f) != {} ==> Count(s, f) == |PteRefs(s, f)|
    ensures Managed(s, f) && Count(s, f) == 0 ==> PteRefs(s, f) == {} && DirRefs(s, f) == {} && f !in s.held
  {
    assert CountExact(s, f);
    var a, b := PteRefs(s, f), DirRefs(s, f);
    forall x | x in a ensures IsSlot(x) && Entry(s, x).present && Entry(s, x).frame == f { SlotsAll(x); }
    SlotsOfOneFrame(a);
    assert |b| <= 1 by {
      if b != {} {
        var d :| d in b;
        assert b == {d} by { forall e | e in b ensures e == d {} }
      }
    }
    if x :| x in a { assert Entry(s, x).frame == f; }
  }

  /** In a run from a good state: no count ever leaves its byte, and a frame handed out by
      get_free_page is named by nobody. */
  lemma CountsOverRuns(s: State, es: seq<Step>, t: State, f: nat)
    requires Inv(s) && Run(s, es, t) && LOW <= f < NFRAMES
    ensures CountExact(t, f) && Count(t, f) < 128
    ensures Enabled(t, Grab(f)) ==> Managed(t, f) && f !in t.held && PteRefs(t, f) == {} && DirRefs(t, f) == {}
  {
    RunKeeps(s, es, t);
    RolesOf(t, f);
  }

  // ---- The address spaces the pager implements ----

  /** One private memory per linear page; nothing is shared. */
  type Spaces = map<Slot, View>

  ghost function SpacesOf(s: State): Spaces { map x | x in AllSlots() :: ReadPage(s, x) }

  datatype Op =
    | Idle
    | Put(x: Slot, v: View)
    | Copy(x: Slot, y: Slot)
    | Poke(x: Slot, off: nat, w: Word)

  ghost function Apply(m: Spaces, o: Op): Spaces {
    match o
    case Idle => m
    case Put(x, v) => m[x := v]
    case Copy(x, y) => if x in m then m[y := m[x]] else m
    case Poke(x, off, w) => if x in m && m[x].Own? && off < NPTE then m[x := Own(m[x].page[off := w])] else m
  }

  /** What a change means to the tasks.  Write-protection, reference counts, page tables and the
      copying of a shared page mean nothing to them. */
  ghost function Meaning(s: State, e: Step): Op {
    match e
    case Unmap(x) => Put(x, Absent)
    case Share(x, y) => if IsSlot(x) then Copy(x, y) else Put(y, Kernel(Entry(s, x).frame))
    case MapHeld(x, f) => Put(x, Own(Frame(s, f)))
    case CopyOut(x, f) => if Entry(s, x).frame < LOW then Put(x, Own(Frame(s, Entry(s, x).frame))) else Idle
    case Store(x, off, w) => Poke(x, off, w)
    case _ => Idle
  }

  lemma PutMeans(s: State, t: State, x: Slot, v: View)
    requires IsSlot(x) && forall y | IsSlot(y) :: ReadPage(t, y) == if y == x then v else ReadPage(s, y)
    ensures SpacesOf(t) == SpacesOf(s)[x := v]
  {
    forall y ensures y in AllSlots() <==> IsSlot(y) { SlotsAll(y); }
  }

  lemma IdleMeans(s: State, t: State)
    requires forall y | IsSlot(y) :: ReadPage(t, y) == ReadPage(s, y)
    ensures SpacesOf(t) == SpacesOf(s)
  {
    forall y ensures y in AllSlots() <==> IsSlot(y) { SlotsAll(y); }
  }

  lemma SpaceAt(s: State, x: Slot)
    ensures x in SpacesOf(s) <==> IsSlot(x)
    ensures IsSlot(x) ==> SpacesOf(s)[x] == ReadPage(s, x)
  {
    SlotsAll(x);
  }

  lemma StepMeans(s: State, e: Step)
    requires Inv(s) && Enabled(s, e)
    ensures SpacesOf(Next(s, e)) == Apply(SpacesOf(s), Meaning(s, e))
  {
    hide Inv;
    var t := Next(s, e);
    match e {
      case Grab(f) => GrabKeeps(s, f); IdleMeans(s, t);
      case Release(f) => ReleaseKeeps(s, f); IdleMeans(s, t);
      case Fill(f, p) => FillKeeps(s, f, p); IdleMeans(s, t);
      case MakeTable(d, f) => MakeTableKeeps(s, d, f); IdleMeans(s, t);
      case DropTable(d) => DropTableKeeps(s, d); IdleMeans(s, t);
      case Unmap(x) => UnmapKeeps(s, x); PutMeans(s, t, x, Absent);
      case Share(x, y) => ShareMeans(s, x, y);
      case MapHeld(x, f) => MapHeldKeeps(s, x, f); PutMeans(s, t, x, Own(Frame(s, f)));
      case Unprotect(x) => UnprotectKeeps(s, x); IdleMeans(s, t);
      case CopyOut(x, f) => CopyOutMeans(s, x, f);
      case Store(x, off, w) => StoreMeans(s, x, off, w);
    }
  }

  lemma ShareMeans(s: State, x: Slot, y: Slot)
    requires Inv(s) && Enabled(s, Share(x, y))
    ensures SpacesOf(Next(s, Share(x, y))) == Apply(SpacesOf(s), Meaning(s, Share(x, y)))
  {
    ShareKeeps(s, x, y);
    PutMeans(s, Next(s, Share(x, y)), y, ReadPage(s, x));
    SpaceAt(s, x);
  }

  lemma CopyOutMeans(s: State, x: Slot, f: nat)
    requires Inv(s) && Enabled(s, CopyOut(x, f))
    ensures SpacesOf(Next(s, CopyOut(x, f))) == Apply(SpacesOf(s), Meaning(s, CopyOut(x, f)))
  {
    CopyOutKeeps(s, x, f);
    var t := Next(s, CopyOut(x, f));
    PutMeans(s, t, x, Own(Frame(s, Entry(s, x).frame)));
    if Entry(s, x).frame >= LOW { IdleMeans(s, t); }
  }

  lemma StoreMeans(s: State, x: Slot, off: nat, w: Word)
    requires Inv(s) && Enabled(s, Store(x, off, w))
    ensures SpacesOf(Next(s, Store(x, off, w))) == Apply(SpacesOf(s), Meaning(s, Store(x, off, w)))
  {
    var p := Frame(s, Entry(s, x).frame);
    assert ReadPage(s, x) == Own(p);
    StoreKeeps(s, x, off, w);
    hide Inv, Next, Enabled, ReadPage, SpacesOf, Frame, Entry;
    SpaceAt(s, x);
    PutMeans(s, Next(s, Store(x, off, w)), x, Own(p[off := w]));
  }

  ghost function ApplyAll(m: Spaces, os: seq<Op>): Spaces
    decreases |os|
  {
    if os == [] then m else ApplyAll(Apply(m, os[0]), os[1..])
  }

  ghost function Meanings(s: State, es: seq<Step>): seq<Op>
    decreases |es|
  {
    if es == [] then [] else [Meaning(s, es[0])] + Meanings(Next(s, es[0]), es[1..])
  }

  /** The pager refines separate address spaces: what all tasks read after a run is what the same
      run does to memories that were never shared. */
  lemma {:induction false} RunMeans(s: State, es: seq<Step>, t: State)
    requires Inv(s) && Run(s, es, t)
    ensures SpacesOf(t) == ApplyAll(SpacesOf(s), Meanings(s, es))
    decreases |es|
  {
    if es != [] {
      StepMeans(s, es[0]);
      StepKeeps(s, es[0]);
      RunMeans(Next(s, es[0]), es[1..], t);
      assert Meanings(s, es)[1..] == Meanings(Next(s, es[0]), es[1..]);
    }
  }

  /** The linear page whose owner performs the change, if it has one. */
  function Subject(e: Step): Option<Slot> {
    match e
    case Unmap(x) => Some(x)
    case Share(x, y) => Some(y)
    case MapHeld(x, f) => Some(x)
    case Unprotect(x) => Some(x)
    case CopyOut(x, f) => Some(x)
    case Store(x, off, w) => Some(x)
    case _ => None
  }

  /** No change in es is to a page of task n. */
  predicate Spares(es: seq<Step>, n: nat) {
    forall i | 0 <= i < |es| && Subject(es[i]).Some? :: Task(Subject(es[i]).value) != n
  }

  /** Isolation: whatever the other tasks store, map, unmap, fork or share, a task keeps reading
      the same bytes. */
  lemma {:induction false} OthersCannotBeSeen(s: State, es: seq<Step>, t: State, x: Slot)
    requires Inv(s) && Run(s, es, t) && IsSlot(x) && Spares(es, Task(x))
    ensures ReadPage(t, x) == ReadPage(s, x)
    decreases |es|
  {
    if es != [] {
      StepSpares(s, es[0], x);
      StepKeeps(s, es[0]);
      OthersCannotBeSeen(Next(s, es[0]), es[1..], t, x);
    }
  }

  lemma StepSpares(s: State, e: Step, x: Slot)
    requires Inv(s) && Enabled(s, e) && IsSlot(x) && (Subject(e).Some? ==> Task(Subject(e).value) != Task(x))
    ensures ReadPage(Next(s, e), x) == ReadPage(s, x)
  {
    hide Inv, Next, SpacesOf;
    StepMeans(s, e);
    SpaceAt(s, x);
    SpaceAt(Next(s, e), x);
    assert SpacesOf(Next(s, e))[x] == SpacesOf(s)[x];
  }
}
