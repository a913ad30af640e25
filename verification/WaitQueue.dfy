/** kernel/sched.c: sleep_on and wake_up.  A wait queue is one pointer; the rest of it is hidden in the
    variable tmp of the sleepers' own kernel stacks.  Task 0 never sleeps, so 0 stands for NULL. */
module WaitQueue {

  /** TASK_RUNNING, TASK_UNINTERRUPTIBLE inside sleep_on, or any other state. */
  datatype Mode = Runnable | Blocked | Other

  /** `parked`: inside sleep_on(on), with tmp on its stack. */
  datatype Task = Task(mode: Mode, parked: bool, tmp: nat, on: nat)

  datatype State = State(task: seq<Task>, head: seq<nat>)

  /** The kernel is left only at schedule: sleep_on up to that call, sleep_on from there on, wake_up, and
      whatever else happens to a task that is not in sleep_on. */
  datatype Step = Sleep(p: nat, q: nat) | Resume(p: nat) | Wake(q: nat) | Change(p: nat, to: Mode)

  predicate Enabled(s: State, step: Step) {
    match step
    case Sleep(p, q) => 0 < p < |s.task| && q < |s.head| && !s.task[p].parked && s.task[p].mode == Runnable
    case Resume(p) => p < |s.task| && s.task[p].parked && s.task[p].mode == Runnable
    case Wake(q) => q < |s.head|
    case Change(p, to) => p < |s.task| && !s.task[p].parked && to != Blocked
  }

  /** (*t).state = 0 */
  function Run(task: seq<Task>, t: nat): seq<Task> {
    if 0 < t < |task| then task[t := task[t].(mode := Runnable)] else task
  }

  function Next(s: State, step: Step): State
    requires Enabled(s, step)
  {
    match step
    case Sleep(p, q) => State(s.task[p := Task(Blocked, true, s.head[q], q)], s.head[q := p])
    case Resume(p) => State(Run(s.task[p := Task(Runnable, false, 0, 0)], s.task[p].tmp), s.head)
    case Wake(q) => State(Run(s.task, s.head[q]), s.head[q := 0])
    case Change(p, to) => s.(task := s.task[p := s.task[p].(mode := to)])
  }

  // ---- What the pointers stand for ----

  /** queue[q]: who sleeps on q, last come first.  behind[p]: who waits for the woken task p to run. */
  datatype Lists = Lists(queue: seq<seq<nat>>, behind: map<nat, seq<nat>>)

  function First(c: seq<nat>): nat { if c == [] then 0 else c[0] }

  function Listed(a: Lists, step: Step): Lists {
    match step
    case Sleep(p, q) => if q < |a.queue| then a.(queue := a.queue[q := [p] + a.queue[q]]) else a
    case Resume(p) =>
      if p !in a.behind then a
      else if a.behind[p] == [] then a.(behind := a.behind - {p})
      else a.(behind := (a.behind - {p})[a.behind[p][0] := a.behind[p][1..]])
    case Wake(q) =>
      if q >= |a.queue| || a.queue[q] == [] then a
      else Lists(a.queue[q := []], a.behind[a.queue[q][0] := a.queue[q][1..]])
    case Change(_, _) => a
  }

  datatype Spot = InQueue(q: nat, i: nat) | Behind(p: nat, i: nat)

  predicate IsSpot(a: Lists, x: Spot) {
    match x
    case InQueue(q, i) => q < |a.queue| && i < |a.queue[q]|
    case Behind(p, i) => p in a.behind && i < |a.behind[p]|
  }

  function At(a: Lists, x: Spot): nat
    requires IsSpot(a, x)
  {
    match x
    case InQueue(q, i) => a.queue[q][i]
    case Behind(p, i) => a.behind[p][i]
  }

  /** Element i of chain c is asleep on q and has saved the next one. */
  predicate Asleep(s: State, c: seq<nat>, i: nat, q: nat)
    requires i < |c|
  {
    0 < c[i] < |s.task| && s.task[c[i]] == Task(Blocked, true, if i + 1 < |c| then c[i + 1] else 0, q)
  }

  predicate Chain(s: State, c: seq<nat>, q: nat) { forall i: nat | i < |c| :: Asleep(s, c, i, q) }

  predicate Woken(s: State, p: nat) { 0 < p < |s.task| && s.task[p].parked && s.task[p].mode == Runnable }

  ghost predicate Rep(s: State, a: Lists) {
    && |a.queue| == |s.head|
    && (forall q: nat | q < |a.queue| :: s.head[q] == First(a.queue[q]) && Chain(s, a.queue[q], q))
    && (forall p: nat :: p in a.behind <==> Woken(s, p))
    && (forall p: nat | p in a.behind :: s.task[p].tmp == First(a.behind[p]) && Chain(s, a.behind[p], s.task[p].on))
    && OnceEach(a) && NoneLost(s, a)
    && (0 < |s.task| ==> !s.task[0].parked)
  }

  /** Nobody is at two spots. */
  ghost predicate OnceEach(a: Lists) {
    forall x, y | IsSpot(a, x) && IsSpot(a, y) && At(a, x) == At(a, y) :: x == y
  }

  /** Every task blocked in sleep_on is at some spot. */
  ghost predicate NoneLost(s: State, a: Lists) {
    && (forall t: nat | t < |s.task| && s.task[t].mode == Blocked :: s.task[t].parked && Placed(a, t))
    && (forall t: nat | t < |s.task| && s.task[t].parked :: s.task[t].mode != Other)
  }

  ghost predicate Placed(a: Lists, t: nat) { exists x :: IsSpot(a, x) && At(a, x) == t }

  lemma SpotBlocked(s: State, a: Lists, x: Spot)
    requires Rep(s, a) && IsSpot(a, x)
    ensures 0 < At(a, x) < |s.task| && s.task[At(a, x)].mode == Blocked && s.task[At(a, x)].parked
  {
    match x
    case InQueue(q, i) => assert Asleep(s, a.queue[q], i, q);
    case Behind(p, i) => assert Asleep(s, a.behind[p], i, s.task[p].on);
  }

  /** A chain none of whose sleepers is touched stays as it is. */
  lemma ChainKept(s: State, t: State, c: seq<nat>, q: nat)
    requires Chain(s, c, q)
    requires forall i: nat | i < |c| :: SameTask(s, t, c[i])
    ensures Chain(t, c, q)
  {
    forall i: nat | i < |c| ensures Asleep(t, c, i, q) { assert Asleep(s, c, i, q) && SameTask(s, t, c[i]); }
  }

  predicate SameTask(s: State, t: State, p: nat) { 0 < p < |s.task| == |t.task| && t.task[p] == s.task[p] }

  lemma ChainTail(s: State, c: seq<nat>, q: nat)
    requires Chain(s, c, q) && c != []
    ensures Chain(s, c[1..], q) && 0 < c[0] < |s.task| && s.task[c[0]] == Task(Blocked, true, First(c[1..]), q)
  {
    assert Asleep(s, c, 0, q);
    forall i: nat | i < |c[1..]| ensures Asleep(s, c[1..], i, q) { assert Asleep(s, c, i + 1, q); }
  }

  /** Where the task at spot x of the new lists was before. */
  function Was(a: Lists, step: Step, x: Spot): Spot {
    match step
    case Sleep(p, q) => if x.InQueue? && x.q == q && x.i > 0 then InQueue(q, x.i - 1) else x
    case Resume(p) => if x.Behind? && p in a.behind && x.p == First(a.behind[p]) then Behind(p, x.i + 1) else x
    case Wake(q) => if x.Behind? && q < |a.queue| && x.p == First(a.queue[q]) then InQueue(q, x.i + 1) else x
    case Change(_, _) => x
  }

  /** And where it is now. */
  function Is(a: Lists, step: Step, x: Spot): Spot {
    match step
    case Sleep(p, q) => if x.InQueue? && x.q == q then InQueue(q, x.i + 1) else x
    case Resume(p) => if x.Behind? && x.p == p && p in a.behind
        && x.i > 0 then Behind(First(a.behind[p]), x.i - 1) else x
    case Wake(q) => if x.InQueue? && x.q == q && q < |a.queue| && x.i > 0 then Behind(First(a.queue[q]), x.i - 1) else x
    case Change(_, _) => x
  }

  /** The one sleeper a step wakes. */
  function WakesAt(step: Step): (x: Spot) {
    match step
    case Resume(p) => Behind(p, 0)
    case Wake(q) => InQueue(q, 0)
    case Sleep(_, q) => InQueue(q, 0)
    case Change(_, _) => InQueue(0, 0)
  }

  predicate Wakes(step: Step) { step.Resume? || step.Wake? }

  /** What the lists need to know of the tasks. */
  ghost predicate Apart(a: Lists, step: Step) {
    && (forall x | IsSpot(a, x) :: At(a, x) !in a.behind && At(a, x) != 0)
    && OnceEach(a) && 0 !in a.behind
    && match step
       case Sleep(p, q) => q < |a.queue| && forall x | IsSpot(a, x) :: At(a, x) != p
       case Resume(p) => p in a.behind
       case Wake(q) => q < |a.queue|
       case Change(_, _) => true
  }

  lemma RepApart(s: State, a: Lists, step: Step)
    requires Rep(s, a) && Enabled(s, step)
    ensures Apart(a, step)
  {
    forall x | IsSpot(a, x) ensures At(a, x) !in a.behind && At(a, x) != 0 && !(step.Sleep? && At(a, x) == step.p) {
      SpotBlocked(s, a, x);
    }
    assert step.Resume? ==> Woken(s, step.p);
    assert !Woken(s, 0);
  }

  /** Nobody moves but in his chain: the new lists are the old ones with at most the first of one chain gone
      or one more put in front. */
  lemma SpotMoved(a: Lists, step: Step, x: Spot)
    requires Apart(a, step) && IsSpot(Listed(a, step), x) && !Fresh(step, x)
    ensures IsSpot(a, Was(a, step, x)) && At(Listed(a, step), x) == At(a, Was(a, step, x))
    ensures Is(a, step, Was(a, step, x)) == x && !(Wakes(step) && Was(a, step, x) == WakesAt(step))
  {
    assert step.Resume? && a.behind[step.p] != [] ==> At(a, Behind(step.p, 0)) == a.behind[step.p][0];
    assert step.Wake? && a.queue[step.q] != [] ==> At(a, InQueue(step.q, 0)) == a.queue[step.q][0];
  }

  lemma SpotMoves(a: Lists, step: Step, x: Spot)
    requires Apart(a, step) && IsSpot(a, x) && !(Wakes(step) && x == WakesAt(step))
    ensures IsSpot(Listed(a, step), Is(a, step, x)) && At(Listed(a, step), Is(a, step, x)) == At(a, x)
  {
    match step
    case Sleep(p, q) => assert IsSpot(Listed(a, step), Is(a, step, x));
    case Resume(p) => assert a.behind[p] != [] ==> At(a, Behind(p, 0)) == a.behind[p][0];
    case Wake(q) => assert a.queue[q] != [] ==> At(a, InQueue(q, 0)) == a.queue[q][0];
    case Change(_, _) => assert IsSpot(Listed(a, step), Is(a, step, x));
  }

  predicate Fresh(step: Step, x: Spot) { step.Sleep? && x == InQueue(step.q, 0) }

  lemma StillOnce(a: Lists, step: Step)
    requires Apart(a, step)
    ensures OnceEach(Listed(a, step))
  {
    var b := Listed(a, step);
    forall x, y | IsSpot(b, x) && IsSpot(b, y) && At(b, x) == At(b, y) ensures x == y {
      if !Fresh(step, x) { SpotMoved(a, step, x); }
      if !Fresh(step, y) { SpotMoved(a, step, y); }
      assert step.Sleep? ==> At(b, InQueue(step.q, 0)) == step.p;
      hide Listed, Was, Is;
    }
  }

  /** Who is blocked, before and after. */
  lemma BlockedMoves(s: State, a: Lists, step: Step, t: nat)
    requires Rep(s, a) && Enabled(s, step) && t < |s.task|
    ensures var u := Next(s, step).task; |u| == |s.task| && (u[t].mode == Blocked ==>
              u[t].parked && (t == (if step.Sleep? then step.p else 0)
              || (s.task[t] == u[t] && !(Wakes(step) && IsSpot(a, WakesAt(step)) && At(a, WakesAt(step)) == t))))
    ensures var u := Next(s, step).task; u[t].parked ==> u[t].mode != Other
  {
  }

  lemma StillPlaced(s: State, a: Lists, step: Step)
    requires Rep(s, a) && Enabled(s, step)
    ensures NoneLost(Next(s, step), Listed(a, step))
  {
    var n, b := Next(s, step), Listed(a, step);
    RepApart(s, a, step);
    assert NoneLost(s, a);
    forall t: nat | t < |n.task|
      ensures n.task[t].mode == Blocked ==> n.task[t].parked && Placed(b, t)
      ensures n.task[t].parked ==> n.task[t].mode != Other
    {
      BlockedMoves(s, a, step, t);
      hide Rep, Was, Is, Next;
      if n.task[t].mode == Blocked {
        if step.Sleep? && t == step.p {
          assert At(b, InQueue(step.q, 0)) == t;
        } else {
          assert Placed(a, t);
          var x :| IsSpot(a, x) && At(a, x) == t;
          SpotMoves(a, step, x);
          assert At(b, Is(a, step, x)) == t;
        }
      }
    }
  }

  /** A step writes into the task that takes it and the one it wakes. */
  lemma Untouched(s: State, a: Lists, step: Step, x: Spot)
    requires Rep(s, a) && Enabled(s, step) && IsSpot(a, x) && !(Wakes(step) && x == WakesAt(step))
    ensures SameTask(s, Next(s, step), At(a, x))
  {
    SpotBlocked(s, a, x);
    if step.Wake? && a.queue[step.q] != [] { SameSpot(a, x, InQueue(step.q, 0)); }
    if step.Resume? && a.behind[step.p] != [] { SameSpot(a, x, Behind(step.p, 0)); }
  }

  lemma SameSpot(a: Lists, x: Spot, y: Spot)
    requires OnceEach(a) && IsSpot(a, x) && IsSpot(a, y)
    ensures At(a, x) == At(a, y) ==> x == y
  {}

  lemma QueueKept(s: State, a: Lists, step: Step, k: nat)
    requires Rep(s, a) && Enabled(s, step) && k < |a.queue|
    ensures var n, b := Next(s, step), Listed(a, step); n.head[k] == First(b.queue[k]) && Chain(n, b.queue[k], k)
  {
    var n, c := Next(s, step), a.queue[k];
    if step == Wake(k) {
    } else {
      forall i: nat | i < |c| ensures SameTask(s, n, c[i]) { Untouched(s, a, step, InQueue(k, i)); }
      ChainKept(s, n, c, k);
      if step.Sleep? && step.q == k {
        var d := [step.p] + c;
        forall i: nat | i < |d| ensures Asleep(n, d, i, k) { assert i > 0 ==> Asleep(n, c, i - 1, k); }
      }
    }
  }

  /** The chain behind task k, if k was woken before. */
  lemma BehindKept(s: State, a: Lists, step: Step, k: nat)
    requires Rep(s, a) && Enabled(s, step) && k in a.behind && step != Resume(k)
    ensures var n := Next(s, step); 0 < k < |n.task| && n.task[k] == s.task[k] && Chain(n, a.behind[k], n.task[k].on)
  {
    assert Woken(s, k);
    var n, c := Next(s, step), a.behind[k];
    if step.Wake? && a.queue[step.q] != [] { SpotBlocked(s, a, InQueue(step.q, 0)); }
    if step.Resume? {
      assert Woken(s, step.p);
      if a.behind[step.p] != [] { SpotBlocked(s, a, Behind(step.p, 0)); }
    }
    forall i: nat | i < |c| ensures SameTask(s, n, c[i]) { Untouched(s, a, step, Behind(k, i)); }
    ChainKept(s, n, c, s.task[k].on);
  }

  /** The chain behind the task that the step wakes: the rest of the chain it was first of. */
  lemma WokenChain(s: State, a: Lists, step: Step)
    requires Rep(s, a) && Enabled(s, step) && Wakes(step) && IsSpot(a, WakesAt(step))
    ensures var n, b, k := Next(s, step), Listed(a, step), At(a, WakesAt(step));
            && k in b.behind && 0 < k < |n.task| && s.task[k].mode == Blocked
               && n.task[k] == s.task[k].(mode := Runnable)
            && n.task[k].parked && n.task[k].tmp == First(b.behind[k]) && Chain(n, b.behind[k], n.task[k].on)
            && n.task[k].on == (if step.Wake? then step.q else s.task[step.p].on)
  {
    var n, x := Next(s, step), WakesAt(step);
    SpotBlocked(s, a, x);
    assert step.Resume? ==> Woken(s, step.p);
    var c := if step.Wake? then a.queue[step.q] else a.behind[step.p];
    var on := if step.Wake? then step.q else s.task[step.p].on;
    assert Chain(s, c, on) && c[0] == At(a, x);
    ChainTail(s, c, on);
    forall i: nat | i < |c[1..]| ensures SameTask(s, n, c[1..][i]) {
      Untouched(s, a, step, if step.Wake? then InQueue(step.q, i + 1) else Behind(step.p, i + 1));
    }
    ChainKept(s, n, c[1..], on);
  }

  lemma BehindListed(s: State, a: Lists, step: Step, k: nat)
    requires Rep(s, a) && Enabled(s, step)
    ensures var n, b := Next(s, step), Listed(a, step);
            && (k in b.behind <==> Woken(n, k))
            && (k in b.behind ==> n.task[k].tmp == First(b.behind[k]) && Chain(n, b.behind[k], n.task[k].on))
  {
    RepApart(s, a, step);
    assert Woken(s, k) <==> k in a.behind;
    var woken := Wakes(step) && IsSpot(a, WakesAt(step));
    if woken { WokenChain(s, a, step); }
    if k in a.behind && step != Resume(k) && !(woken && k == At(a, WakesAt(step))) { BehindKept(s, a, step, k); }
  }

  /** Every step keeps the pointers in line with the lists. */
  lemma StepListed(s: State, a: Lists, step: Step)
    requires Rep(s, a) && Enabled(s, step)
    ensures Rep(Next(s, step), Listed(a, step))
  {
    var n, b := Next(s, step), Listed(a, step);
    RepApart(s, a, step);
    StillOnce(a, step);
    StillPlaced(s, a, step);
    assert |b.queue| == |n.head|;
    assert 0 < |n.task| ==> !n.task[0].parked;
    forall q: nat | q < |b.queue| ensures n.head[q] == First(b.queue[q]) && Chain(n, b.queue[q], q) {
      QueueKept(s, a, step, q);
    }
    forall p: nat ensures p in b.behind <==> Woken(n, p) { BehindListed(s, a, step, p); }
    forall p: nat | p in b.behind ensures n.task[p].tmp == First(b.behind[p]) && Chain(n, b.behind[p], n.task[p].on) {
      BehindListed(s, a, step, p);
    }
  }

  // ---- Nobody is lost ----

  /** A pointer that can name a sleeper: the head of a queue or the tmp of a task inside sleep_on. */
  datatype Name = HeadOf(q: nat) | SavedBy(p: nat)

  predicate IsName(s: State, x: Name) {
    match x
    case HeadOf(q) => q < |s.head|
    case SavedBy(p) => p < |s.task| && s.task[p].parked
  }

  function Names(s: State, x: Name): nat
    requires IsName(s, x)
  {
    match x
    case HeadOf(q) => s.head[q]
    case SavedBy(p) => s.task[p].tmp
  }

  /** The pointer that leads to a spot. */
  function NameOf(a: Lists, x: Spot): Name
    requires IsSpot(a, x)
  {
    match x
    case InQueue(q, i) => if i == 0 then HeadOf(q) else SavedBy(a.queue[q][i - 1])
    case Behind(p, i) => if i == 0 then SavedBy(p) else SavedBy(a.behind[p][i - 1])
  }

  lemma NameLeads(s: State, a: Lists, x: Spot)
    requires Rep(s, a) && IsSpot(a, x)
    ensures IsName(s, NameOf(a, x)) && Names(s, NameOf(a, x)) == At(a, x)
  {
    match x
    case InQueue(q, i) => assert i > 0 ==> Asleep(s, a.queue[q], i - 1, q);
    case Behind(p, i) =>
      assert Woken(s, p);
      assert i > 0 ==> Asleep(s, a.behind[p], i - 1, s.task[p].on);
  }

  lemma NameSpot(s: State, a: Lists, y: Name) returns (x: Spot)
    requires Rep(s, a) && IsName(s, y) && Names(s, y) != 0
    ensures IsSpot(a, x) && NameOf(a, x) == y && At(a, x) == Names(s, y)
  {
    match y
    case HeadOf(q) => x := InQueue(q, 0);
    case SavedBy(p) =>
      if Woken(s, p) {
        x := Behind(p, 0);
      } else {
        assert s.task[p].mode == Blocked && Placed(a, p);
        var z :| IsSpot(a, z) && At(a, z) == p;
        x := if z.InQueue? then InQueue(z.q, z.i + 1) else Behind(z.p, z.i + 1);
        match z
        case InQueue(q, i) => assert Asleep(s, a.queue[q], i, q);
        case Behind(k, i) => assert Asleep(s, a.behind[k], i, s.task[k].on);
      }
  }

  ghost predicate NamedOnce(s: State, t: nat) {
    exists x :: IsName(s, x) && Names(s, x) == t && forall y | IsName(s, y) && Names(s, y) == t :: y == x
  }

  /** A task is asleep in sleep_on exactly when one pointer names it, and then no second one does. */
  lemma BlockedNamedOnce(s: State, a: Lists, t: nat)
    requires Rep(s, a) && 0 < t < |s.task|
    ensures s.task[t].mode == Blocked <==> exists x :: IsName(s, x) && Names(s, x) == t
    ensures s.task[t].mode == Blocked ==> NamedOnce(s, t)
  {
    if s.task[t].mode == Blocked {
      assert Placed(a, t);
      var x :| IsSpot(a, x) && At(a, x) == t;
      NameLeads(s, a, x);
      forall y | IsName(s, y) && Names(s, y) == t ensures y == NameOf(a, x) {
        var z := NameSpot(s, a, y);
        SameSpot(a, x, z);
      }
    }
    if x :| IsName(s, x) && Names(s, x) == t {
      var z := NameSpot(s, a, x);
      SpotBlocked(s, a, z);
    }
  }

  // ---- Whole runs ----

  ghost predicate Ran(run: seq<State>, steps: seq<Step>) {
    && |run| == |steps| + 1
    && forall i | 0 <= i < |steps| :: Enabled(run[i], steps[i]) && run[i + 1] == Next(run[i], steps[i])
  }

  function AllListed(a: Lists, steps: seq<Step>): Lists {
    if steps == [] then a else Listed(AllListed(a, steps[..|steps| - 1]), steps[|steps| - 1])
  }

  /** No task is in sleep_on and no queue has a head. */
  ghost predicate Quiet(s: State) {
    && (forall p | 0 <= p < |s.task| :: !s.task[p].parked && s.task[p].mode != Blocked)
    && (forall q | 0 <= q < |s.head| :: s.head[q] == 0)
  }

  lemma QuietListed(s: State)
    requires Quiet(s)
    ensures Rep(s, Lists(seq(|s.head|, _ => []), map[]))
  {}

  lemma {:induction false} RunListed(run: seq<State>, steps: seq<Step>, a: Lists)
    requires Ran(run, steps) && Rep(run[0], a)
    ensures Rep(run[|steps|], AllListed(a, steps))
    decreases |steps|
  {
    if steps != [] {
      var k := |steps| - 1;
      assert Ran(run[..k + 1], steps[..k]);
      RunListed(run[..k + 1], steps[..k], a);
      StepListed(run[k], AllListed(a, steps[..k]), steps[k]);
    }
  }

  /** From a quiet start on nobody is ever lost or named twice, whatever the interleaving. */
  lemma NobodyLost(run: seq<State>, steps: seq<Step>, t: nat)
    requires Ran(run, steps) && Quiet(run[0]) && 0 < t < |run[|steps|].task|
    ensures var s := run[|steps|];
            && (s.task[t].mode == Blocked <==> exists x :: IsName(s, x) && Names(s, x) == t)
            && (s.task[t].mode == Blocked ==> NamedOnce(s, t))
  {
    var a := Lists(seq(|run[0].head|, _ => []), map[]);
    QuietListed(run[0]);
    RunListed(run, steps, a);
    BlockedNamedOnce(run[|steps|], AllListed(a, steps), t);
  }

  // ---- Waking all of a queue ----

  /** The chain c behind the woken task p: after w of its members were woken in turn, this one is at the front. */
  function Front(p: nat, c: seq<nat>, w: nat): nat
    requires w <= |c|
  {
    if w == 0 then p else c[w - 1]
  }

  /** How many members of c have been woken: one whenever the front of the chain leaves sleep_on. */
  function Reach(p: nat, c: seq<nat>, steps: seq<Step>): (w: nat)
    ensures w <= |c|
  {
    if steps == [] then 0
    else
      var w := Reach(p, c, steps[..|steps| - 1]);
      if w < |c| && steps[|steps| - 1] == Resume(Front(p, c, w)) then w + 1 else w
  }

  /** The front of the rest of the chain can run; the others still sleep in the same order. */
  ghost predicate Cascading(s: State, a: Lists, p: nat, c: seq<nat>, w: nat)
    requires w <= |c|
  {
    w < |c| ==> Front(p, c, w) in a.behind && a.behind[Front(p, c, w)] == c[w..]
  }

  lemma CascadeStep(s: State, a: Lists, step: Step, p: nat, c: seq<nat>, w: nat)
    requires Rep(s, a) && Enabled(s, step) && w < |c| && Cascading(s, a, p, c, w)
    ensures var v := if step == Resume(Front(p, c, w)) then w + 1 else w;
            && Cascading(Next(s, step), Listed(a, step), p, c, v)
            && (v > w ==> 0 < c[w] < |s.task| && Next(s, step).task[c[w]].mode == Runnable)
  {
    var f := Front(p, c, w);
    RepApart(s, a, step);
    if step == Resume(f) {
      assert c[w..][0] == c[w] && c[w..][1..] == c[w + 1..];
      WokenChain(s, a, step);
    } else {
      if step.Resume? && a.behind[step.p] != [] { assert At(a, Behind(step.p, 0)) != f; }
      if step.Wake? && a.queue[step.q] != [] { assert At(a, InQueue(step.q, 0)) != f; }
    }
  }

  lemma {:induction false} Cascade(run: seq<State>, steps: seq<Step>, a: Lists, p: nat)
    requires Ran(run, steps) && Rep(run[0], a) && p in a.behind
    ensures var c := a.behind[p]; Cascading(run[|steps|], AllListed(a, steps), p, c, Reach(p, c, steps))
    decreases |steps|
  {
    if steps != [] {
      var k, c := |steps| - 1, a.behind[p];
      assert Ran(run[..k + 1], steps[..k]);
      Cascade(run[..k + 1], steps[..k], a, p);
      RunListed(run[..k + 1], steps[..k], a);
      if Reach(p, c, steps[..k]) < |c| {
        CascadeStep(run[k], AllListed(a, steps[..k]), steps[k], p, c, Reach(p, c, steps[..k]));
      }
    }
  }

  /** Whoever a step wakes was asleep, in a sleep_on of the very queue the step is about. */
  lemma WakesRightOne(s: State, a: Lists, step: Step)
    requires Rep(s, a) && Enabled(s, step)
    ensures step.Wake? && s.head[step.q] != 0 ==>
              var t := s.head[step.q]; t < |s.task| && s.task[t].mode == Blocked && s.task[t].on == step.q
    ensures step.Resume? && s.task[step.p].tmp != 0 ==>
              var t := s.task[step.p].tmp;
                  t < |s.task| && s.task[t].mode == Blocked && s.task[t].on == s.task[step.p].on
  {
    assert step.Resume? ==> Woken(s, step.p);
    if Wakes(step) && IsSpot(a, WakesAt(step)) { WokenChain(s, a, step); }
  }

  lemma {:induction false} WokenOnTheWay(run: seq<State>, steps: seq<Step>, a: Lists, p: nat, i: nat)
    requires Ran(run, steps) && Rep(run[0], a) && p in a.behind && i < Reach(p, a.behind[p], steps)
    ensures exists k :: 0 <= k < |run| && Awake(run[k], a.behind[p][i])
    decreases |steps|
  {
    var k, c := |steps| - 1, a.behind[p];
    assert Ran(run[..k + 1], steps[..k]);
    var w := Reach(p, c, steps[..k]);
    if i < w {
      WokenOnTheWay(run[..k + 1], steps[..k], a, p, i);
    } else {
      Cascade(run[..k + 1], steps[..k], a, p);
      RunListed(run[..k + 1], steps[..k], a);
      CascadeStep(run[k], AllListed(a, steps[..k]), steps[k], p, c, w);
      assert Awake(run[k + 1], c[i]);
    }
  }

  predicate Awake(s: State, t: nat) { t < |s.task| && s.task[t].mode == Runnable }

  predicate AsleepOn(s: State, t: nat, q: nat) {
    t < |s.task| && s.task[t].mode == Blocked && s.task[t].parked && s.task[t].on == q
  }

  lemma BehindAsleep(s: State, a: Lists, f: nat, c: seq<nat>)
    requires Rep(s, a) && f in a.behind && a.behind[f] == c && c != []
    ensures Woken(s, f) && s.task[f].tmp == c[0] && forall i | 0 <= i < |c| :: AsleepOn(s, c[i], s.task[f].on)
  {
    assert Woken(s, f);
    forall i: nat | i < |c| ensures AsleepOn(s, c[i], s.task[f].on) { assert Asleep(s, c, i, s.task[f].on); }
  }

  /** While some of the chain are left, the last one woken has not left sleep_on yet, and the rest sleep on. */
  lemma RestAsleep(run: seq<State>, steps: seq<Step>, a: Lists, p: nat)
    requires Ran(run, steps) && Rep(run[0], a) && p in a.behind
    ensures var c, s := a.behind[p], run[|steps|];
            var w := Reach(p, c, steps);
            w < |c| ==>
              && Woken(s, Front(p, c, w)) && s.task[Front(p, c, w)].tmp == c[w]
              && forall i | w <= i < |c| :: p < |run[0].task| && AsleepOn(s, c[i], run[0].task[p].on)
  {
    var c, s := a.behind[p], run[|steps|];
    var w := Reach(p, c, steps);
    assert Woken(run[0], p);
    if w < |c| {
      Cascade(run, steps, a, p);
      RunListed(run, steps, a);
      StillOn(run, steps, a, p);
      hide Rep, Reach, Ran, AllListed;
      BehindAsleep(s, AllListed(a, steps), Front(p, c, w), c[w..]);
      forall i | w <= i < |c| ensures AsleepOn(s, c[i], run[0].task[p].on) { assert c[w..][i - w] == c[i]; }
    }
  }

  /** wake_up reaches everybody who slept on the queue, one after the other: at any later time some of them
      have been made runnable, in order, and while others are left the last one made runnable still is, and
      its next run wakes the next. */
  lemma WakeUpReachesAll(run: seq<State>, steps: seq<Step>, a: Lists, q: nat)
    requires Ran(run, steps) && Rep(run[0], a) && steps != [] && steps[0] == Wake(q)
    requires q < |a.queue| && a.queue[q] != []
    ensures var p, c, s := a.queue[q][0], a.queue[q][1..], run[|steps|];
            var w := Reach(p, c, steps[1..]);
            && (forall i | 0 <= i <= w :: exists k :: 0 <= k < |run| && Awake(run[k], a.queue[q][i]))
            && (w < |c| ==> Woken(s, Front(p, c, w)) && s.task[Front(p, c, w)].tmp == c[w])
            && (forall i | w <= i < |c| :: AsleepOn(s, c[i], q))
  {
    var p, c := a.queue[q][0], a.queue[q][1..];
    var w, b := Reach(p, c, steps[1..]), Listed(a, steps[0]);
    StepListed(run[0], a, steps[0]);
    WokenChain(run[0], a, steps[0]);
    assert b.behind[p] == c && Awake(run[1], p) && run[1].task[p].on == q;
    assert Ran(run[1..], steps[1..]);
    RestAsleep(run[1..], steps[1..], b, p);
    hide Rep, Reach, Ran, Listed;
    forall i | 0 <= i <= w ensures exists k :: 0 <= k < |run| && Awake(run[k], a.queue[q][i]) {
      if i > 0 {
        WokenOnTheWay(run[1..], steps[1..], b, p, i - 1);
        var k :| 0 <= k < |run[1..]| && Awake(run[1..][k], c[i - 1]);
        assert Awake(run[k + 1], a.queue[q][i]);
      }
    }
  }

  /** The front of the chain is on the queue that was woken. */
  lemma {:induction false} StillOn(run: seq<State>, steps: seq<Step>, a: Lists, p: nat)
    requires Ran(run, steps) && Rep(run[0], a) && p in a.behind
    ensures var c, s := a.behind[p], run[|steps|];
            var w := Reach(p, c, steps);
            w < |c| ==> Woken(s, Front(p, c, w)) && s.task[Front(p, c, w)].on == run[0].task[p].on
    decreases |steps|
  {
    var c := a.behind[p];
    assert Woken(run[0], p);
    if steps != [] {
      var k := |steps| - 1;
      var w := Reach(p, c, steps[..k]);
      assert Ran(run[..k + 1], steps[..k]);
      StillOn(run[..k + 1], steps[..k], a, p);
      Cascade(run[..k + 1], steps[..k], a, p);
      RunListed(run[..k + 1], steps[..k], a);
      if w < |c| {
        var s, e, f := run[k], AllListed(a, steps[..k]), Front(p, c, w);
        if steps[k] == Resume(f) { WokenChain(s, e, steps[k]); } else { FrontKept(s, e, steps[k], f); }
      }
    }
  }

  lemma FrontKept(s: State, a: Lists, step: Step, f: nat)
    requires Rep(s, a) && Enabled(s, step) && Woken(s, f) && step != Resume(f)
    ensures Woken(Next(s, step), f) && Next(s, step).task[f].on == s.task[f].on
  {
    BehindKept(s, a, step, f);
  }

  // ---- The kernel's own code ----

  datatype Outcome = Slept | Panic

  class Tasks {
    const mode: array<Mode>
    const parked: array<bool>
    const tmp: array<nat>            // on each task's kernel stack
    const on: array<nat>
    const head: array<nat>

    ghost predicate Shape()
    {
      && mode.Length == parked.Length == tmp.Length == on.Length
      && tmp != on && on != head && tmp != head
    }

    ghost function S(): State
      requires Shape()
      reads mode, parked, tmp, on, head
    {
      State(seq(mode.Length, p requires 0 <= p < mode.Length reads mode, parked, tmp, on => Task(mode[p], parked[p],
          tmp[p], on[p])), head[..])
    }

    /** sleep_on up to the call of schedule, for the running task `current`. */
    method SleepOn(current: nat, q: nat, ghost a: Lists) returns (o: Outcome)
      requires Shape() && Rep(S(), a) && q < head.Length && current < mode.Length
      requires mode[current] == Runnable && !parked[current]
      modifies mode, parked, tmp, on, head
      ensures o == if current == 0 then Panic else Slept
      ensures S() == if o == Panic then old(S()) else Next(old(S()), Sleep(current, q))
      ensures Rep(S(), if o == Panic then a else Listed(a, Sleep(current, q)))
    {
      if current == 0 { return Panic; }
      StepListed(S(), a, Sleep(current, q));
      ghost var s := S();
      tmp[current], on[current], parked[current] := head[q], q, true;
      head[q] := current;
      mode[current] := Blocked;
      assert S() == Next(s, Sleep(current, q));
      o := Slept;
    }

    /** sleep_on from the return of schedule on. */
    method AfterSchedule(current: nat, ghost a: Lists)
      requires Shape() && Rep(S(), a) && current < mode.Length && mode[current] == Runnable && parked[current]
      modifies mode, parked, tmp, on
      ensures S() == Next(old(S()), Resume(current)) && Rep(S(), Listed(a, Resume(current)))
    {
      ghost var s := S();
      StepListed(s, a, Resume(current));
      WakesRightOne(s, a, Resume(current));
      var t := tmp[current];
      parked[current], tmp[current], on[current] := false, 0, 0;
      if t != 0 { mode[t] := Runnable; }
      assert S() == Next(s, Resume(current));
    }

    method WakeUp(q: nat, ghost a: Lists)
      requires Shape() && Rep(S(), a) && q < head.Length
      modifies mode, head
      ensures S() == Next(old(S()), Wake(q)) && Rep(S(), Listed(a, Wake(q)))
    {
      ghost var s := S();
      StepListed(s, a, Wake(q));
      WakesRightOne(s, a, Wake(q));
      if head[q] != 0 {
        mode[head[q]] := Runnable;
        head[q] := 0;
      }
      assert S() == Next(s, Wake(q));
    }
  }
}
