/** The timer list of kernel/sched.c: add_timer and the part of do_timer that runs it.  Each timer holds the
    ticks between the timer before it and itself. */
module Timers {
  const TIME_REQUESTS := 64

  /** fn is the address of the function to call, 0 for none. */
  datatype Timer = Timer(delta: int, fn: nat)

  /** When the i-th timer is due: the sum of the delays up to it. */
  function Due(list: seq<Timer>, i: nat): int
    requires i <= |list|
  {
    if i == 0 then 0 else Due(list, i - 1) + list[i - 1].delta
  }

  /** Delays are not negative, and the next timer is not due before the next tick. */
  ghost predicate Ordered(list: seq<Timer>) {
    && (forall i | 0 <= i < |list| :: list[i].delta >= 0 && list[i].fn != 0)
    && (list != [] ==> list[0].delta > 0)
  }

  /** Where add_timer puts a timer for j ticks from now: behind all that are due earlier. */
  function Inserted(list: seq<Timer>, j: int, fn: nat): seq<Timer> {
    if list == [] || list[0].delta >= j then [Timer(j, fn)] + list
        else [list[0]] + Inserted(list[1..], j - list[0].delta, fn)
  }

  lemma {:induction false} DueFirst(list: seq<Timer>, i: nat)
    requires 0 < i <= |list|
    ensures Due(list, i) == list[0].delta + Due(list[1..], i - 1)
  {
    if i > 1 { DueFirst(list, i - 1); }
  }

  lemma {:induction false} DuePrefix(list: seq<Timer>, other: seq<Timer>, i: nat)
    requires i <= |list| && i <= |other| && list[..i] == other[..i]
    ensures Due(list, i) == Due(other, i)
  {
    if i > 0 {
      assert list[..i][i - 1] == other[..i][i - 1] && list[..i][..i - 1] == list[..i - 1]
             && other[..i][..i - 1] == other[..i - 1];
      DuePrefix(list, other, i - 1);
    }
  }

  function Position(list: seq<Timer>, j: int): (k: nat)
    ensures k <= |list|
  {
    if list == [] || list[0].delta >= j then 0 else 1 + Position(list[1..], j - list[0].delta)
  }

  /** The new timer holds what is left of j at its position; it is due after exactly j ticks. */
  lemma {:induction false} InsertedAt(list: seq<Timer>, j: int, fn: nat)
    requires j > 0
    ensures var k := Position(list, j);
            && Inserted(list, j, fn) == list[..k] + [Timer(j - Due(list, k), fn)] + list[k..] && j > Due(list, k)
            && (k < |list| ==> Due(list, k + 1) >= j)
  {
    if list != [] && list[0].delta < j {
      InsertedAt(list[1..], j - list[0].delta, fn);
      var n := Position(list[1..], j - list[0].delta);
      DueFirst(list, n + 1);
      if n + 1 < |list| { DueFirst(list, n + 2); }
      assert list[..n + 1] == [list[0]] + list[1..][..n];
    }
  }

  /** The timers behind the new one are all put back by what was left of j. */
  lemma {:induction false} DueInserted(list: seq<Timer>, j: int, fn: nat, i: nat)
    requires j > 0 && i <= |list| + 1
    ensures var k, t := Position(list, j), Inserted(list, j, fn);
            && |t| == |list| + 1
            && Due(t, i) == if i <= k then Due(list, i) else if i == k + 1 then j
               else Due(list, i - 1) + j - Due(list, k)
  {
    InsertedAt(list, j, fn);
    var k, t := Position(list, j), Inserted(list, j, fn);
    if i <= k {
      assert t[..i] == list[..i];
      DuePrefix(t, list, i);
    } else {
      DueInserted(list, j, fn, i - 1);
      assert t[i - 1] == if i == k + 1 then Timer(j - Due(list, k), fn) else list[i - 2];
    }
  }

  /** Timer i of the old list is due when it was, at its old or its new place. */
  predicate StillDue(list: seq<Timer>, j: int, fn: nat, i: nat)
    requires i < |list|
  {
    var t, n := Inserted(list, j, fn), if i < Position(list, j) then i else i + 1;
    n < |t| && t[n] == list[i] && Due(t, n + 1) == Due(list, i + 1)
  }

  lemma OneOnTime(list: seq<Timer>, j: int, fn: nat, i: nat)
    requires j > 0 && Ordered(list) && i < |list|
    ensures StillDue(list, j, fn, i) <==> Due(list, i + 1) < j
  {
    var k := Position(list, j);
    InsertedAt(list, j, fn);
    if i < k {
      DueInserted(list, j, fn, i + 1);
      DueGrows(list, i + 1, k);
    } else {
      DueInserted(list, j, fn, i + 2);
      DueGrows(list, k + 1, i + 1);
    }
  }

  /** Adding a timer leaves the due times of the others alone exactly when they are all due before it; those
      that are not are late from then on. */
  lemma OthersOnTime(list: seq<Timer>, j: int, fn: nat)
    requires j > 0 && Ordered(list)
    ensures forall i: nat | i < |list| :: StillDue(list, j, fn, i) <==> Due(list, i + 1) < j
    ensures (forall i: nat | i < |list| :: StillDue(list, j, fn, i)) <==> Due(list, |list|) < j
  {
    forall i: nat | i < |list| ensures StillDue(list, j, fn, i) <==> Due(list, i + 1) < j { OneOnTime(list, j, fn, i); }
    hide StillDue;
    if list != [] {
      var last: nat := |list| - 1;
      assert StillDue(list, j, fn, last) <==> Due(list, last + 1) < j;
      if Due(list, |list|) < j {
        forall i: nat | i < |list| ensures StillDue(list, j, fn, i) { DueGrows(list, i + 1, |list|); }
      }
    }
  }

  /** A timer due in 5 ticks is due in 8 once one for 3 ticks has been added. */
  lemma OlderTimerLate(f: nat, g: nat)
    requires f != 0 && g != 0
    ensures var list: seq<Timer> := [Timer(5, f)];
            var now := Inserted(list, 3, g);
            Ordered(list) && now == [Timer(3, g), Timer(5, f)] && Due(list, 1) == 5 && Due(now, 2) == 8
                && !StillDue(list, 3, g, 0)
  {
    var list: seq<Timer> := [Timer(5, f)];
    var now := Inserted(list, 3, g);
    assert now == [Timer(3, g), Timer(5, f)];
    assert Due(list, 0) == 0 && Due(now, 0) == 0 && Due(list, 1) == 5 && Due(now, 1) == 3;
  }

  lemma {:induction false} DueGrows(list: seq<Timer>, i: nat, k: nat)
    requires i <= k <= |list| && forall n | 0 <= n < |list| :: list[n].delta >= 0
    ensures Due(list, i) <= Due(list, k)
  {
    if i < k { DueGrows(list, i, k - 1); }
  }

  // ---- Ticks ----

  /** do_timer: one tick off the first timer, and all that are due are taken off. */
  function Ticked(list: seq<Timer>): seq<Timer> {
    if list == [] then [] else Popped([Timer(list[0].delta - 1, list[0].fn)] + list[1..])
  }

  function Popped(list: seq<Timer>): seq<Timer> {
    if list == [] || list[0].delta > 0 then list else Popped(list[1..])
  }

  /** How many are taken off. */
  function Expired(list: seq<Timer>): (n: nat)
    ensures n <= |list|
  {
    if list == [] || list[0].delta > 0 then 0 else 1 + Expired(list[1..])
  }

  lemma {:induction false} PoppedAt(list: seq<Timer>, i: nat)
    requires i <= |list| && forall n | 0 <= n < |list| :: list[n].delta >= 0
    ensures Popped(list) == list[Expired(list)..]
    ensures i > 0 ==> (i <= Expired(list) <==> Due(list, i) <= 0)
    ensures i >= Expired(list) ==> Due(Popped(list), i - Expired(list)) == Due(list, i)
  {
    if list != [] && list[0].delta <= 0 {
      if i > 0 {
        PoppedAt(list[1..], i - 1);
        DueFirst(list, i);
      } else {
        PoppedAt(list[1..], 0);
      }
    } else if i > 0 {
      DueGrows(list, 1, i);
      assert Due(list, 1) == list[0].delta;
    }
  }

  /** The timers that run are those that were due at this tick; the others are one tick nearer. */
  lemma TickedDue(list: seq<Timer>, i: nat)
    requires Ordered(list) && i < |list|
    ensures var gone := |list| - |Ticked(list)|;
            && 0 <= gone <= |list| && Ordered(Ticked(list))
            && (i < gone <==> Due(list, i + 1) == 1)
            && (i >= gone ==>
                 Ticked(list)[i - gone].fn == list[i].fn && Due(Ticked(list), i - gone + 1) == Due(list, i + 1) - 1)
  {
    var t := [Timer(list[0].delta - 1, list[0].fn)] + list[1..];
    PoppedAt(t, i + 1);
    DueFirst(t, i + 1);
    DueFirst(list, i + 1);
    assert t[1..] == list[1..];
    PoppedOrdered(t);
    DueGrows(list, 1, i + 1);
    assert Due(list, 1) == list[0].delta;
  }

  lemma {:induction false} PoppedOrdered(list: seq<Timer>)
    requires forall i | 0 <= i < |list| :: list[i].delta >= 0 && list[i].fn != 0
    ensures Ordered(Popped(list)) && |Popped(list)| == |list| - Expired(list)
  {
    if list != [] && list[0].delta <= 0 { PoppedOrdered(list[1..]); }
  }

  datatype Event = Add(j: int, fn: nat) | Tick

  function After(list: seq<Timer>, e: Event): seq<Timer> {
    match e
    case Add(j, fn) => if j > 0 && fn != 0 then Inserted(list, j, fn) else list
    case Tick => Ticked(list)
  }

  /** Where timer i is after an event, if it has not run. */
  function Place(list: seq<Timer>, i: nat, e: Event): int {
    match e
    case Add(j, fn) => if j > 0 && fn != 0 && Position(list, j) <= i then i + 1 else i
    case Tick => i - (|list| - |Ticked(list)|)
  }

  lemma EventLate(list: seq<Timer>, i: nat, e: Event)
    requires Ordered(list) && i < |list|
    ensures Ordered(After(list, e))
    ensures var n := Place(list, i, e);
            Due(list, i + 1) > 1 || !e.Tick? ==>
              && 0 <= n < |After(list, e)| && After(list, e)[n].fn == list[i].fn
              && Due(After(list, e), n + 1) >= Due(list, i + 1) - if e.Tick? then 1 else 0
  {
    match e
    case Tick => TickedDue(list, i);
    case Add(j, fn) =>
      if j > 0 && fn != 0 {
        InsertedOrdered(list, j, fn);
        InsertedAt(list, j, fn);
        DueInserted(list, j, fn, Place(list, i, e) + 1);
      }
  }

  lemma InsertedOrdered(list: seq<Timer>, j: int, fn: nat)
    requires Ordered(list) && j > 0 && fn != 0
    ensures Ordered(Inserted(list, j, fn))
  {
    InsertedAt(list, j, fn);
  }

  function Ticks(events: seq<Event>): nat {
    if events == [] then 0 else Ticks(events[..|events| - 1]) + if events[|events| - 1].Tick? then 1 else 0
  }

  function AfterAll(list: seq<Timer>, events: seq<Event>): seq<Timer> {
    if events == [] then list else After(AfterAll(list, events[..|events| - 1]), events[|events| - 1])
  }

  /** Where timer i is after the events; negative once it has run. */
  function PlaceAfter(list: seq<Timer>, i: nat, events: seq<Event>): int {
    if events == [] then i
    else
      var n := |events| - 1;
      var p := PlaceAfter(list, i, events[..n]);
      if p < 0 then p else Place(AfterAll(list, events[..n]), p, events[n])
  }

  /** A timer never runs early: whatever is added meanwhile, after fewer than j ticks it still waits. */
  lemma {:induction false} NeverEarly(list: seq<Timer>, j: int, fn: nat, events: seq<Event>)
    requires Ordered(list) && j > 0 && fn != 0 && Ticks(events) < j
    ensures var start := Inserted(list, j, fn);
            var now, p := AfterAll(start, events), PlaceAfter(start, Position(list, j), events);
            Ordered(now) && 0 <= p < |now| && now[p].fn == fn && Due(now, p + 1) >= j - Ticks(events)
    decreases |events|
  {
    var start := Inserted(list, j, fn);
    if events == [] {
      InsertedOrdered(list, j, fn);
      InsertedAt(list, j, fn);
      DueInserted(list, j, fn, Position(list, j) + 1);
    } else {
      var n := |events| - 1;
      NeverEarly(list, j, fn, events[..n]);
      EventLate(AfterAll(start, events[..n]), PlaceAfter(start, Position(list, j), events[..n]), events[n]);
    }
  }

  /** With nothing added meanwhile it runs at tick j. */
  lemma {:induction false} RunsOnTime(list: seq<Timer>, i: nat, n: nat)
    requires Ordered(list) && i < |list| && Due(list, i + 1) == n
    ensures n > 0 && |AfterAll(list, seq(n, _ => Tick))| < |list| - i
    decreases n
  {
    TickedDue(list, i);
    DueGrows(list, 1, i + 1);
    assert Due(list, 1) == list[0].delta;
    var one: seq<Event> := [Tick];
    if n > 1 {
      var gone := |list| - |Ticked(list)|;
      RunsOnTime(Ticked(list), i - gone, n - 1);
      FirstEvent(list, n);
    } else {
      assert seq(1, _ => Tick) == one && one[..0] == [];
      assert AfterAll(list, one) == Ticked(list);
    }
  }

  lemma {:induction false} FirstEvent(list: seq<Timer>, n: nat)
    requires n > 0
    ensures AfterAll(list, seq(n, _ => Tick)) == AfterAll(Ticked(list), seq(n - 1, _ => Tick))
  {
    var e, f := seq(n, _ => Tick), seq(n - 1, _ => Tick);
    assert e[..n - 1] == f;
    if n > 1 {
      assert f[..n - 2] == seq(n - 2, _ => Tick);
      FirstEvent(list, n - 1);
    }
  }
}
