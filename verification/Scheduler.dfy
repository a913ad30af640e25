/** kernel/sched.c: schedule, do_timer and sys_nice. */
module Scheduler {
  const NR_TASKS := 64
  const SIGALRM := 14
  const KILL_AND_STOP := {9, 19}

  datatype Mode = Running | Interruptible | Uninterruptible | Zombie | Stopped

  datatype Slot = None | Task(mode: Mode, counter: int, priority: int, signal: set<nat>, blocked: set<nat>, alarm: int)

  // ---- schedule ----

  /** The first loop: an alarm that has gone off, and a signal that ends an interruptible sleep. */
  function Signalled(t: Slot, jiffies: int): Slot {
    if t.None? then t
    else
      var rings := t.alarm != 0 && t.alarm < jiffies;
      var signal := if rings then t.signal + {SIGALRM} else t.signal;
      var alarm := if rings then 0 else t.alarm;
      var wakes := signal - (t.blocked - KILL_AND_STOP) != {} && t.mode == Interruptible;
      Task(if wakes then Running else t.mode, t.counter, t.priority, signal, t.blocked, alarm)
  }

  function Recharged(t: Slot): Slot {
    if t.None? then t else t.(counter := t.counter / 2 + t.priority)
  }

  function AllSignalled(task: seq<Slot>, jiffies: int): (r: seq<Slot>)
    ensures |r| == |task| && forall i | 0 <= i < |task| ::
            r[i] == if i == 0 then task[0] else Signalled(task[i], jiffies)
  {
    seq(|task|, i requires 0 <= i < |task| => if i == 0 then task[0] else Signalled(task[i], jiffies))
  }

  function AllRecharged(task: seq<Slot>): (r: seq<Slot>)
    ensures |r| == |task| && forall i | 0 <= i < |task| :: r[i] == if i == 0 then task[0] else Recharged(task[i])
  {
    seq(|task|, i requires 0 <= i < |task| => if i == 0 then task[0] else Recharged(task[i]))
  }

  predicate Ready(t: Slot) { t.Task? && t.mode == Running }

  /** c and next once the slots from i up have been looked at, from the top. */
  function Scan(task: seq<Slot>, i: nat): (r: (int, nat))
    requires i <= |task|
    decreases |task| - i
  {
    if i == |task| then (-1, 0)
    else
      var (c, next) := Scan(task, i + 1);
      if Ready(task[i]) && task[i].counter > c then (task[i].counter, i) else (c, next)
  }

  /** `next` is the ready task with the largest counter, the highest slot among equals; 0 if none is ready. */
  ghost predicate Best(task: seq<Slot>, i: nat, c: int, next: nat) {
    if c == -1 then next == 0 && forall k | i <= k < |task| :: !Ready(task[k]) || task[k].counter < 0
    else
      && c >= 0 && i <= next < |task| && Ready(task[next]) && task[next].counter == c
      && (forall k | i <= k < |task| && Ready(task[k]) :: task[k].counter <= c)
      && (forall k | next < k < |task| && Ready(task[k]) :: task[k].counter < c)
  }

  lemma {:induction false} ScanBest(task: seq<Slot>, i: nat)
    requires i <= |task|
    ensures Best(task, i, Scan(task, i).0, Scan(task, i).1)
    decreases |task| - i
  {
    if i < |task| { ScanBest(task, i + 1); }
  }

  function Scheduled(task: seq<Slot>, jiffies: int): (seq<Slot>, nat)
    requires task != []
  {
    var s := AllSignalled(task, jiffies);
    if Scan(s, 1).0 != 0 then (s, Scan(s, 1).1) else (AllRecharged(s), Scan(AllRecharged(s), 1).1)
  }

  // ---- States and steps ----

  datatype State = State(task: seq<Slot>, current: nat, jiffies: int)

  predicate SoundSlot(t: Slot) { t.Task? ==> t.counter >= 0 && t.priority > 0 }

  ghost predicate Sound(s: State) {
    SoundSlots(s.task) && s.current < NR_TASKS && s.task[s.current].Task?
  }

  /** A timer interrupt in user or in kernel mode; a call of schedule; anything that changes one task but
      not its counter (sleep, wake_up, a signal, sys_nice), or releases it; fork. */
  datatype Step = UserTick | KernelTick | Yield | Change(p: nat, to: Slot) | Fork(p: nat)

  ghost predicate Enabled(s: State, step: Step) {
    match step
    case Change(p, to) =>
      && p < |s.task| && s.task[p].Task?
      && (if to.None? then p != 0 && p != s.current else to.counter == s.task[p].counter && to.priority > 0)
    case Fork(p) => 0 < p < |s.task| && s.task[p].None?
    case _ => true
  }

  function Ticked(t: Slot): Slot {
    if t.None? then t else t.(counter := if t.counter - 1 > 0 then t.counter - 1 else 0)
  }

  function Switched(task: seq<Slot>, jiffies: int): State
    requires task != []
  {
    State(Scheduled(task, jiffies).0, Scheduled(task, jiffies).1, jiffies)
  }

  function Next(s: State, step: Step): State
    requires s.current < |s.task| && s.task[s.current].Task? && Enabled(s, step)
  {
    match step
    case UserTick =>
      var t := s.task[s.current := Ticked(s.task[s.current])];
      if t[s.current].counter > 0 then State(t, s.current, s.jiffies + 1) else Switched(t, s.jiffies + 1)
    case KernelTick => State(s.task[s.current := Ticked(s.task[s.current])], s.current, s.jiffies + 1)
    case Yield => Switched(s.task, s.jiffies)
    case Change(p, to) => s.(task := s.task[p := to])
    case Fork(p) =>
      var c := s.task[s.current];
      s.(task := s.task[p := Task(Uninterruptible, c.priority, c.priority, {}, c.blocked, 0)])
  }

  lemma ScheduledSound(task: seq<Slot>, jiffies: int)
    requires SoundSlots(task)
    ensures Sound(Switched(task, jiffies))
  {
    var s := AllSignalled(task, jiffies);
    RoundsSound(task, jiffies);
    RoundsSound(s, 0);
    SchedulePicks(task, jiffies);
  }

  lemma StepSound(s: State, step: Step)
    requires Sound(s) && Enabled(s, step)
    ensures Sound(Next(s, step))
  {
    if step.UserTick? { ScheduledSound(s.task[s.current := Ticked(s.task[s.current])], s.jiffies + 1); }
    if step.Yield? { ScheduledSound(s.task, s.jiffies); }
  }

  /** Some task is ready and all ready tasks have used up their time. */
  ghost predicate Exhausted(task: seq<Slot>) {
    (exists i :: 0 < i < |task| && Ready(task[i]))
        && forall i | 0 < i < |task| && Ready(task[i]) :: task[i].counter == 0
  }

  predicate SoundSlots(task: seq<Slot>) {
    |task| == NR_TASKS && task[0].Task? && forall i | 0 <= i < NR_TASKS :: SoundSlot(task[i])
  }

  /** Task n can be switched to: it has time left, and no ready task has more. */
  ghost predicate Pick(u: seq<Slot>, n: nat) {
    && 0 < n < |u| && Ready(u[n]) && u[n].counter > 0
    && (forall i | 0 < i < |u| && Ready(u[i]) :: u[i].counter <= u[n].counter)
    && (forall i | n < i < |u| && Ready(u[i]) :: u[i].counter < u[n].counter)
  }

  ghost predicate Idle(u: seq<Slot>) { forall i | 0 < i < |u| :: !Ready(u[i]) }

  /** One turn of the while loop. */
  lemma RoundPicks(u: seq<Slot>)
    requires SoundSlots(u)
    ensures var (c, n) := Scan(u, 1);
            && (c == 0 <==> Exhausted(u)) && (c == -1 <==> Idle(u)) && (c == -1 <==> n == 0) && c >= -1
            && (c > 0 ==> Pick(u, n))
  {
    ScanBest(u, 1);
    assert forall i | 0 < i < |u| :: SoundSlot(u[i]);
  }

  lemma RoundsSound(task: seq<Slot>, jiffies: int)
    requires SoundSlots(task)
    ensures SoundSlots(AllSignalled(task, jiffies)) && SoundSlots(AllRecharged(task))
  {
    forall i | 0 <= i < NR_TASKS ensures SoundSlot(AllSignalled(task, jiffies)[i]) && SoundSlot(AllRecharged(task)[i]) {
      assert SoundSlot(task[i]);
    }
  }

  /** Giving out time never leaves a ready task without. */
  lemma RechargedPicks(u: seq<Slot>)
    requires SoundSlots(u) && Exhausted(u)
    ensures Scan(AllRecharged(u), 1).0 > 0
  {
    var r := AllRecharged(u);
    RoundsSound(u, 0);
    RoundPicks(r);
    var i :| 0 < i < |u| && Ready(u[i]);
    assert SoundSlot(u[i]) && Ready(r[i]) && r[i].counter > 0;
  }

  /** What schedule does: it gives out time exactly when every ready task has used up its own, and then
      switches to a task that has the most time left, which is more than none; only when no task is
      ready at all does it switch to task 0. */
  lemma SchedulePicks(task: seq<Slot>, jiffies: int)
    requires SoundSlots(task)
    ensures var (u, n) := Scheduled(task, jiffies);
            var s := AllSignalled(task, jiffies);
            u == (if Exhausted(s) then AllRecharged(s) else s) && if Idle(u) then n == 0 else Pick(u, n)
  {
    var s := AllSignalled(task, jiffies);
    RoundsSound(task, jiffies);
    RoundPicks(s);
    if Exhausted(s) {
      RoundsSound(s, 0);
      RoundPicks(AllRecharged(s));
      RechargedPicks(s);
    }
  }

  // ---- What schedule does to each task ----

  /** The signal part: SIGALRM (14) comes with an alarm that has gone off and only then; an interruptible task
      can run again if and only if it has a signal that is not blocked, or SIGKILL (9) or SIGSTOP (19). */
  ghost predicate Notified(was: Slot, now: Slot, jiffies: int) {
    was.Task? ==>
      var rang := was.alarm != 0 && was.alarm < jiffies;
      && now.Task? && now.blocked == was.blocked && now.priority == was.priority
      && (forall g :: g in now.signal <==> g in was.signal || (g == 14 && rang))
      && now.alarm == (if rang then 0 else was.alarm)
      && now.mode == (if was.mode == Interruptible
                         && exists g :: g in now.signal && (g !in was.blocked || g == 9 || g == 19)
                      then Running else was.mode)
  }

  lemma SignalledMeans(t: Slot, jiffies: int)
    ensures Notified(t, Signalled(t, jiffies), jiffies) && (t.None? <==> Signalled(t, jiffies).None?)
    ensures t.Task? ==> Signalled(t, jiffies).counter == t.counter
  {
    if t.Task? {
      var u := Signalled(t, jiffies);
      var open := u.signal - (t.blocked - KILL_AND_STOP);
      forall g ensures g in open <==> g in u.signal && (g !in t.blocked || g == 9 || g == 19) {}
      if open != {} {
        var g :| g in open;
        assert g in u.signal && (g !in t.blocked || g == 9 || g == 19);
      }
    }
  }

  /** Time is given out if some task can run and none that can has any left. */
  ghost predicate GivesTime(was: seq<Slot>, now: seq<Slot>)
    requires |was| == |now|
  {
    && (exists i :: 0 < i < |now| && now[i].Task? && now[i].mode == Running)
    && (forall i | 0 < i < |now| && now[i].Task? && now[i].mode == Running :: was[i].Task? && was[i].counter == 0)
  }

  /** A call of schedule: signals are looked at; when time is given out each task, asleep or not, keeps half of
      what it has left and gets its priority on top; and the task that runs next has the most. */
  ghost predicate Rescheduled(was: seq<Slot>, now: seq<Slot>, current: nat, jiffies: int) {
    && |was| == |now| && was != [] && now[0] == was[0]
    && (forall i | 0 < i < |was| :: Notified(was[i], now[i], jiffies) && (was[i].None? <==> now[i].None?))
    && (forall i | 0 < i < |was| && was[i].Task? && now[i].Task? ::
          now[i].counter == if GivesTime(was, now) then was[i].counter / 2 + was[i].priority else was[i].counter)
    && if forall i | 0 < i < |now| :: now[i].None? || now[i].mode != Running then current == 0
       else
         && 0 < current < |now| && now[current].Task? && now[current].mode == Running
         && forall i | 0 < i < |now| && now[i].Task? && now[i].mode == Running :: now[i].counter <= now[current].counter
  }

  lemma ScheduledMeans(task: seq<Slot>, jiffies: int)
    requires SoundSlots(task)
    ensures Rescheduled(task, Scheduled(task, jiffies).0, Scheduled(task, jiffies).1, jiffies)
  {
    var s, u := AllSignalled(task, jiffies), Scheduled(task, jiffies).0;
    SchedulePicks(task, jiffies);
    forall i: nat | 0 < i < |task|
      ensures Notified(task[i], u[i], jiffies) && (task[i].None? <==> u[i].None?) && Ready(u[i]) == Ready(s[i])
      ensures task[i].Task? ==> s[i].Task? && s[i].counter == task[i].counter && s[i].priority == task[i].priority
    {
      SignalledMeans(task[i], jiffies);
    }
    hide Notified, Signalled;
    assert Exhausted(s) <==> GivesTime(task, u);
  }

  // ---- Bounds ----

  ghost predicate Bounded(s: State, max: int) { forall i | 0 <= i < |s.task| :: InBounds(s.task[i], max) }

  predicate InBounds(t: Slot, max: int) { t.Task? ==> t.priority <= max && t.counter < 2 * max }

  ghost predicate PrioritiesTo(s: State, max: int) {
    forall i | 0 <= i < |s.task| && s.task[i].Task? :: s.task[i].priority <= max
  }

  /** While no priority is above max, counters stay below twice max, also through fork and sys_nice. */
  lemma StepBounded(s: State, step: Step, max: int)
    requires Sound(s) && Enabled(s, step) && Bounded(s, max) && PrioritiesTo(Next(s, step), max)
    ensures Bounded(Next(s, step), max)
  {
    var t := Next(s, step);
    forall i | 0 <= i < |t.task| ensures InBounds(t.task[i], max) {
      assert InBounds(s.task[i], max) && InBounds(s.task[s.current], max) && SoundSlot(s.task[s.current]);
    }
  }

  // ---- Nobody starves ----

  function Time(t: Slot): int { if t.None? then 0 else t.counter }

  function Times(task: seq<Slot>): (r: seq<int>)
    ensures |r| == |task| && forall i | 0 <= i < |task| :: r[i] == Time(task[i])
  {
    seq(|task|, i requires 0 <= i < |task| => Time(task[i]))
  }

  function Sum(x: seq<int>): int { if x == [] then 0 else Sum(x[..|x| - 1]) + x[|x| - 1] }

  lemma {:induction false} SumUpdate(x: seq<int>, i: nat, v: int)
    requires i < |x|
    ensures Sum(x[i := v]) == Sum(x) - x[i] + v
  {
    var n := |x| - 1;
    if i == n {
      assert x[i := v][..n] == x[..n];
    } else {
      assert x[i := v][..n] == x[..n][i := v];
      SumUpdate(x[..n], i, v);
    }
  }

  lemma {:induction false} SumBetween(x: seq<int>, max: int)
    requires forall i | 0 <= i < |x| :: 0 <= x[i] <= max
    ensures 0 <= Sum(x) <= |x| * max
  {
    if x != [] { SumBetween(x[..|x| - 1], max); }
  }

  /** All the time that has been given out, and one more if the current task has none. */
  function Left(s: State): int
    requires s.current < |s.task|
  {
    Sum(Times(s.task)) + if Time(s.task[s.current]) == 0 then 1 else 0
  }

  /** Slot t is ready but another task runs. */
  predicate Waits(s: State, t: nat) { 0 < t < |s.task| && Ready(s.task[t]) && s.current != t }

  lemma ChangedTimes(s: seq<Slot>, p: nat, to: Slot)
    requires p < |s|
    ensures Sum(Times(s[p := to])) == Sum(Times(s)) - Time(s[p]) + Time(to)
  {
    assert Times(s[p := to]) == Times(s)[p := Time(to)];
    SumUpdate(Times(s), p, Time(to));
  }

  /** A call of schedule while t waits: either time is given out, and t gets some, or no time is and the
      next task has some left. */
  lemma ScheduleLeft(task: seq<Slot>, jiffies: int, t: nat)
    requires SoundSlots(task) && 0 < t < |task| && Ready(Scheduled(task, jiffies).0[t])
    ensures var (u, n) := Scheduled(task, jiffies);
            n < |u| && Time(u[n]) > 0 && (Time(task[t]) > 0 ==> Times(u) == Times(task))
                && (Times(u) == Times(task) || Time(u[t]) > 0)
  {
    SchedulePicks(task, jiffies);
    var s := AllSignalled(task, jiffies);
    var (u, n) := Scheduled(task, jiffies);
    assert Times(s) == Times(task);
    assert Ready(s[t]) && Times(s)[t] == Times(task)[t];
    assert SoundSlot(task[t]) && !Idle(u);
  }

  /** The time a child starts with. */
  function Born(s: State, step: Step): int {
    if step.Fork? && s.current < |s.task| && s.task[s.current].Task? then s.task[s.current].priority else 0
  }

  /** While t waits and no time is given out, every tick in user mode uses some up and nothing but a fork adds
      any; time is given out only if t had none, and then t gets some. */
  lemma StepLeft(s: State, step: Step, t: nat)
    requires Sound(s) && Enabled(s, step) && Waits(s, t) && Waits(Next(s, step), t)
    ensures var n := Next(s, step);
            && Sound(n)
            && (|| (Left(n) <= Left(s) - (if step.UserTick? then 1 else 0) + Born(s, step)
                    && Time(n.task[t]) == Time(s.task[t]))
                || (Time(s.task[t]) == 0 && Time(n.task[t]) > 0))
  {
    StepSound(s, step);
    assert SoundSlot(s.task[s.current]);
    if step.Fork? { ChangedTimes(s.task, step.p, Next(s, step).task[step.p]); }
    if step.Change? { ChangedTimes(s.task, step.p, step.to); }
    if step.Yield? { YieldLeft(s, t); }
    if step.UserTick? || step.KernelTick? { TickLeft(s, step, t); }
  }

  lemma YieldLeft(s: State, t: nat)
    requires Sound(s) && Waits(s, t) && Waits(Next(s, Yield), t)
    ensures var n := Next(s, Yield);
            && n.current < |n.task|
            && ((Left(n) <= Left(s) && Time(n.task[t]) == Time(s.task[t]))
               || (Time(s.task[t]) == 0 && Time(n.task[t]) > 0))
  {
    ScheduleLeft(s.task, s.jiffies, t);
    var n := Next(s, Yield);
    assert Times(n.task)[t] == Time(n.task[t]) && Times(s.task)[t] == Time(s.task[t]);
    assert SoundSlot(s.task[t]);
  }

  lemma TickSound(s: State, t: nat)
    requires Sound(s) && t < |s.task|
    ensures SoundSlot(s.task[s.current]) && SoundSlot(s.task[t])
            && SoundSlots(s.task[s.current := Ticked(s.task[s.current])])
  {
    assert SoundSlot(s.task[s.current]) && SoundSlot(s.task[t]);
  }

  lemma TickLeft(s: State, step: Step, t: nat)
    requires Sound(s) && Waits(s, t) && (step.UserTick? || step.KernelTick?) && Waits(Next(s, step), t)
    ensures var n := Next(s, step);
            && n.current < |n.task|
            && (|| (Left(n) <= Left(s) - (if step.UserTick? then 1 else 0) && Time(n.task[t]) == Time(s.task[t]))
                || (Time(s.task[t]) == 0 && Time(n.task[t]) > 0))
  {
    hide Scheduled, Sum;
    var n, u := Next(s, step), s.task[s.current := Ticked(s.task[s.current])];
    TickSound(s, t);
    ChangedTimes(s.task, s.current, Ticked(s.task[s.current]));
    if step.UserTick? && u[s.current].counter == 0 {
      ScheduleLeft(u, s.jiffies + 1, t);
      assert Times(n.task)[t] == Time(n.task[t]) && Times(u)[t] == Time(u[t]);
    }
  }

  ghost predicate Ran(run: seq<State>, steps: seq<Step>) {
    && |run| == |steps| + 1 && Sound(run[0])
    && forall i | 0 <= i < |steps| :: Stepped(run[i], steps[i], run[i + 1])
  }

  ghost predicate Stepped(s: State, step: Step, n: State) {
    Enabled(s, step) && s.current < |s.task| && s.task[s.current].Task? && n == Next(s, step)
  }

  function UserTicks(steps: seq<Step>): nat {
    if steps == [] then 0 else UserTicks(steps[..|steps| - 1]) + if steps[|steps| - 1].UserTick? then 1 else 0
  }

  function Forks(steps: seq<Step>): nat {
    if steps == [] then 0 else Forks(steps[..|steps| - 1]) + if steps[|steps| - 1].Fork? then 1 else 0
  }

  ghost predicate WaitsThrough(run: seq<State>, steps: seq<Step>, t: nat) {
    Ran(run, steps) && forall s | s in run :: Waits(s, t)
  }

  /** How many ticks may still pass, when no priority is above max. */
  function Patience(s: State, t: nat, max: int): int
    requires s.current < |s.task| && t < |s.task|
  {
    Left(s) + if Time(s.task[t]) > 0 then 0 else 1 + NR_TASKS * (2 * max - 1)
  }

  lemma LeftBounded(s: State, max: int)
    requires Sound(s) && Bounded(s, max)
    ensures max > 0 && 0 <= Left(s) <= NR_TASKS * (2 * max - 1)
  {
    assert SoundSlot(s.task[0]) && InBounds(s.task[0], max);
    forall i | 0 <= i < NR_TASKS ensures 0 <= Times(s.task)[i] <= 2 * max - 1 {
      assert SoundSlot(s.task[i]) && InBounds(s.task[i], max);
    }
    SumBetween(Times(s.task), 2 * max - 1);
    SumUpdate(Times(s.task), s.current, 2 * max - 1);
    SumBetween(Times(s.task)[s.current := 2 * max - 1], 2 * max - 1);
  }

  lemma PatienceFalls(s: State, step: Step, t: nat, max: int)
    requires Sound(s) && Enabled(s, step) && Waits(s, t) && Waits(Next(s, step), t)
    requires Bounded(s, max) && PrioritiesTo(s, max) && PrioritiesTo(Next(s, step), max)
    ensures var n := Next(s, step);
            && Sound(n) && Bounded(n, max) && 0 <= Left(s)
            && Patience(n, t, max)
               <= Patience(s, t, max) - (if step.UserTick? then 1 else 0) + (if step.Fork? then max else 0)
            && (Time(s.task[t]) > 0 ==> Time(n.task[t]) == Time(s.task[t]))
  {
    StepLeft(s, step, t);
    StepBounded(s, step, max);
    LeftBounded(s, max);
    LeftBounded(Next(s, step), max);
  }

  lemma {:induction false} Starves(run: seq<State>, steps: seq<Step>, t: nat, max: int)
    requires WaitsThrough(run, steps, t) && Bounded(run[0], max) && forall s | s in run :: PrioritiesTo(s, max)
    ensures var n := run[|steps|];
            && Sound(n) && Bounded(n, max) && t < |n.task|
            && Patience(n, t, max) + UserTicks(steps) <= Patience(run[0], t, max) + Forks(steps) * max
            && (Time(run[0].task[t]) > 0 ==> Time(n.task[t]) == Time(run[0].task[t]))
    decreases |steps|
  {
    assert Waits(run[0], t);
    if steps != [] {
      var k := |steps| - 1;
      assert Ran(run[..k + 1], steps[..k]);
      Starves(run[..k + 1], steps[..k], t, max);
      assert Stepped(run[k], steps[k], run[k + 1]) && Waits(run[k], t) && Waits(run[k + 1], t);
      assert PrioritiesTo(run[k], max) && PrioritiesTo(run[k + 1], max);
      PatienceFalls(run[k], steps[k], t, max);
      LastStep(steps, max);
      hide Patience, Bounded, PrioritiesTo, Waits, Time, Next, Sound, Forks, UserTicks;
    }
  }

  lemma LastStep(steps: seq<Step>, max: int)
    requires steps != []
    ensures var k := |steps| - 1;
            && UserTicks(steps) == UserTicks(steps[..k]) + (if steps[k].UserTick? then 1 else 0)
            && Forks(steps) * max == Forks(steps[..k]) * max + if steps[k].Fork? then max else 0
  {
    var k := |steps| - 1;
    assert Forks(steps) == Forks(steps[..k]) + if steps[k].Fork? then 1 else 0;
    OneMore(Forks(steps[..k]), max);
    hide *;
  }

  lemma OneMore(n: int, max: int)
    ensures (n + 1) * max == n * max + max
  {}

  /** No ready task waits for ever.  With no priority above max, at most this many timer ticks come in user mode
      before it is switched to; if it has time left, at most as many as there is time given out to the
      others, and one.  Each fork meanwhile, which brings a task with time of its own, adds at most max. */
  lemma NoStarvation(run: seq<State>, steps: seq<Step>, t: nat, max: int)
    requires WaitsThrough(run, steps, t) && Bounded(run[0], max) && forall s | s in run :: PrioritiesTo(s, max)
    ensures UserTicks(steps) <= 2 * NR_TASKS * (2 * max - 1) + 1 + Forks(steps) * max
    ensures t < |run[0].task| && (Time(run[0].task[t]) > 0 ==>
              UserTicks(steps) <= Sum(Times(run[0].task)) - Time(run[0].task[t]) + 1 + Forks(steps) * max)
  {
    Starves(run, steps, t, max);
    var s, n := run[0], run[|steps|];
    assert Waits(s, t) && Waits(n, t);
    LeftBounded(s, max);
    LeftBounded(n, max);
    TimeOfOne(n, t);
  }

  lemma TimeOfOne(s: State, t: nat)
    requires Sound(s) && t < |s.task|
    ensures Left(s) >= Time(s.task[t])
  {
    ChangedTimes(s.task, t, None);
    var x := Times(s.task[t := None]);
    forall i | 0 <= i < |x| ensures x[i] >= 0 { assert SoundSlot(s.task[i]); }
    SumNatural(x);
  }

  lemma {:induction false} SumNatural(x: seq<int>)
    requires forall i | 0 <= i < |x| :: 0 <= x[i]
    ensures 0 <= Sum(x)
  {
    if x != [] { SumNatural(x[..|x| - 1]); }
  }

  // ---- The kernel's own code ----

  class Kernel {
    const task: array<Slot>
    var current: nat
    var jiffies: int

    ghost function S(): State
      reads this, task
    {
      State(task[..], current, jiffies)
    }

    /** The loop goes round twice at most. */
    method Schedule() returns (ghost rounds: nat)
      requires SoundSlots(task[..])
      modifies `current, task
      ensures S() == Switched(old(task[..]), jiffies) && 1 <= rounds <= 2
      ensures Rescheduled(old(task[..]), task[..], current, jiffies)
    {
      ScheduledMeans(task[..], jiffies);
      ghost var was := task[..];
      CheckSignals();
      ghost var s := task[..];
      RoundsSound(was, jiffies);
      RoundPicks(s);
      RoundsSound(s, 0);
      RoundPicks(AllRecharged(s));
      assert Exhausted(s) ==> Scan(AllRecharged(s), 1).0 > 0 by { if Exhausted(s) { RechargedPicks(s); } }
      rounds := 0;
      while true
        invariant task[..] == (if rounds == 0 then s else AllRecharged(s)) && rounds <= 1
        invariant rounds == 1 ==> Exhausted(s)
        decreases 1 - rounds
      {
        var c, next := Select();
        rounds := rounds + 1;
        if c != 0 {
          current := next;
          return;
        }
        Recharge();
      }
    }

    method CheckSignals()
      requires task.Length == NR_TASKS
      modifies task
      ensures task[..] == AllSignalled(old(task[..]), jiffies) && task[0] == old(task[0])
      ensures forall i | 0 < i < NR_TASKS :: Notified(old(task[i]), task[i], jiffies)
      ensures forall i | 0 < i < NR_TASKS && old(task[i]).Task? ::
              task[i].Task? && task[i].counter == old(task[i]).counter
    {
      ghost var was := task[..];
      var p: nat := NR_TASKS - 1;
      while p > 0
        invariant p < NR_TASKS
        invariant forall i | 0 <= i < NR_TASKS :: task[i] == if i > p then Signalled(was[i], jiffies) else was[i]
      {
        var t := task[p];
        if t.Task? {
          if t.alarm != 0 && t.alarm < jiffies { t := t.(signal := t.signal + {SIGALRM}, alarm := 0); }
          if t.signal - (t.blocked - KILL_AND_STOP) != {} && t.mode == Interruptible { t := t.(mode := Running); }
          task[p] := t;
        }
        p := p - 1;
      }
      ghost var all := AllSignalled(was, jiffies);
      assert forall i | 0 <= i < NR_TASKS :: task[i] == all[i];
      forall i | 0 < i < NR_TASKS
        ensures Notified(was[i], task[i], jiffies)
                && (was[i].Task? ==> task[i].Task? && task[i].counter == was[i].counter)
      {
        SignalledMeans(was[i], jiffies);
      }
    }

    method Select() returns (c: int, next: nat)
      requires task.Length == NR_TASKS
      ensures (c, next) == Scan(task[..], 1)
    {
      c, next := -1, 0;
      var i := NR_TASKS;
      while i > 1
        invariant 1 <= i <= NR_TASKS && (c, next) == Scan(task[..], i)
      {
        i := i - 1;
        if task[i].Task? && task[i].mode == Running && task[i].counter > c { c, next := task[i].counter, i; }
      }
    }

    method Recharge()
      requires task.Length == NR_TASKS
      modifies task
      ensures task[..] == AllRecharged(old(task[..]))
    {
      ghost var was := task[..];
      var p: nat := NR_TASKS - 1;
      while p > 0
        invariant p < NR_TASKS
        invariant forall i | 0 <= i < NR_TASKS :: task[i] == if i > p then Recharged(was[i]) else was[i]
      {
        if task[p].Task? { task[p] := task[p].(counter := task[p].counter / 2 + task[p].priority); }
        p := p - 1;
      }
      ghost var all := AllRecharged(was);
      assert forall i | 0 <= i < NR_TASKS :: task[i] == all[i];
    }

    /** do_timer, as far as scheduling goes; the interrupt has advanced jiffies. */
    method DoTimer(user: bool)
      requires Sound(S())
      modifies this, task
      ensures Sound(S()) && S() == Next(old(S()), if user then UserTick else KernelTick)
      ensures jiffies == old(jiffies) + 1
      ensures var c := old(task[current].counter);
              var ticked := old(task[..])[old(current) := old(task[current]).(counter := if c > 1 then c - 1 else 0)];
              if user && c <= 1 then Rescheduled(ticked, task[..], current, jiffies)
              else task[..] == ticked && current == old(current)
    {
      StepSound(S(), if user then UserTick else KernelTick);
      ghost var s := S();
      jiffies := jiffies + 1;
      assert SoundSlot(s.task[current]);
      task[current] := task[current].(counter := task[current].counter - 1);
      if task[current].counter > 0 {
        assert task[..] == s.task[current := Ticked(s.task[current])];
        return;
      }
      task[current] := task[current].(counter := 0);
      assert task[..] == s.task[current := Ticked(s.task[current])];
      if !user { return; }
      var _ := Schedule();
    }

    method Nice(increment: int)
      requires Sound(S())
      modifies task
      ensures Sound(S())
      ensures task[current].priority ==
                if increment < old(task[current].priority) then old(task[current].priority) - increment
                    else old(task[current].priority)
      ensures S() == Next(old(S()), Change(current, old(task[current]).(priority := task[current].priority)))
    {
      ghost var s := S();
      assert SoundSlot(s.task[current]);
      if task[current].priority - increment > 0 {
        task[current] := task[current].(priority := task[current].priority - increment);
      }
      assert S().task == s.task[current := task[current]];
      StepSound(s, Change(current, task[current]));
    }
  }
}
