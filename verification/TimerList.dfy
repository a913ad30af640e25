/** The timer list of kernel/sched.c as add_timer and do_timer keep it: linked through a fixed table. */
module TimerList {
  import opened Counting
  import opened Timers

  /** timer_list; TIME_REQUESTS stands for NULL. */
  datatype Slots = Slots(delta: seq<int>, fn: seq<nat>, next: seq<nat>, first: nat)

  function Nth(c: seq<nat>, i: nat): nat { if i < |c| then c[i] else TIME_REQUESTS }

  predicate LinkAt(s: Slots, c: seq<nat>, i: nat)
    requires i < |c|
  {
    c[i] < TIME_REQUESTS && c[i] < |s.next| && s.next[c[i]] == Nth(c, i + 1)
  }

  /** c is the chain of slots from `first` on; the slots in use are those of the chain. */
  ghost predicate Rep(s: Slots, c: seq<nat>) {
    && |s.delta| == |s.fn| == |s.next| == TIME_REQUESTS && s.first == Nth(c, 0)
    && (forall i: nat | i < |c| :: LinkAt(s, c, i))
    && Distinct(c)
    && (forall t: nat | t < TIME_REQUESTS :: s.fn[t] != 0 <==> t in c)
  }

  function Item(s: Slots, p: nat): Timer {
    if p < |s.delta| && p < |s.fn| then Timer(s.delta[p], s.fn[p]) else Timer(0, 0)
  }

  function List(s: Slots, c: seq<nat>): (r: seq<Timer>)
    ensures |r| == |c| && forall i: nat | i < |c| :: r[i] == Item(s, c[i])
  {
    seq(|c|, i requires 0 <= i < |c| => Item(s, c[i]))
  }

  function Put(s: Slots, p: nat, j: int, f: nat): Slots
    requires p < |s.delta| && p < |s.fn| && p < |s.next|
  {
    Slots(s.delta[p := j], s.fn[p := f], s.next[p := s.first], p)
  }

  lemma PutRep(s: Slots, c: seq<nat>, p: nat, j: int, f: nat)
    requires Rep(s, c) && p < TIME_REQUESTS && s.fn[p] == 0 && f != 0
    ensures Rep(Put(s, p, j, f), [p] + c) && List(Put(s, p, j, f), [p] + c) == [Timer(j, f)] + List(s, c)
  {
    var t, e := Put(s, p, j, f), [p] + c;
    assert p !in c;
    forall i: nat | i < |e| ensures LinkAt(t, e, i) && Item(t, e[i]) == ([Timer(j, f)] + List(s, c))[i] {
      if i > 0 { assert LinkAt(s, c, i - 1) && e[i] == c[i - 1]; }
    }
  }

  /** The contents of a slot and of the one after it are exchanged, after the second's delay was taken off the first. */
  function Sunk(s: Slots, p: nat, q: nat): Slots
    requires p < |s.delta| == |s.fn| && q < |s.delta|
  {
    s.(delta := s.delta[p := s.delta[q]][q := s.delta[p] - s.delta[q]], fn := s.fn[p := s.fn[q]][q := s.fn[p]])
  }

  lemma SunkRep(s: Slots, c: seq<nat>, m: nat)
    requires Rep(s, c) && m + 1 < |c|
    ensures c[m] < TIME_REQUESTS && c[m + 1] < TIME_REQUESTS && Rep(Sunk(s, c[m], c[m + 1]), c)
    ensures var l := List(s, c);
            List(Sunk(s, c[m], c[m + 1]), c) == l[m := l[m + 1]][m + 1 := Timer(l[m].delta - l[m + 1].delta, l[m].fn)]
  {
    assert LinkAt(s, c, m) && LinkAt(s, c, m + 1);
    var p, q := c[m], c[m + 1];
    var t, l := Sunk(s, p, q), List(s, c);
    assert s.fn[p] != 0 && s.fn[q] != 0;
    forall i: nat | i < |c| ensures LinkAt(t, c, i) { assert LinkAt(s, c, i); }
    var want := l[m := l[m + 1]][m + 1 := Timer(l[m].delta - l[m + 1].delta, l[m].fn)];
    forall i: nat | i < |c| ensures Item(t, c[i]) == want[i] { SunkItem(s, c, m, i); }
  }

  lemma SunkItem(s: Slots, c: seq<nat>, m: nat, i: nat)
    requires Rep(s, c) && m + 1 < |c| && i < |c| && c[m] < TIME_REQUESTS && c[m + 1] < TIME_REQUESTS
    ensures var x, y := Item(s, c[m]), Item(s, c[m + 1]);
            Item(Sunk(s, c[m], c[m + 1]), c[i]) ==
              if i == m then y else if i == m + 1 then Timer(x.delta - y.delta, x.fn) else Item(s, c[i])
  {
    assert LinkAt(s, c, i);
  }

  function WithoutFirst(s: Slots): Slots
    requires s.first < |s.fn| && s.first < |s.next|
  {
    s.(fn := s.fn[s.first := 0], first := s.next[s.first])
  }

  lemma WithoutFirstRep(s: Slots, c: seq<nat>)
    requires Rep(s, c) && c != []
    ensures s.first == c[0] < TIME_REQUESTS && Rep(WithoutFirst(s), c[1..])
            && List(WithoutFirst(s), c[1..]) == List(s, c)[1..]
  {
    assert LinkAt(s, c, 0);
    var t, e := WithoutFirst(s), c[1..];
    forall i: nat | i < |e| ensures LinkAt(t, e, i) && Item(t, e[i]) == List(s, c)[1..][i] {
      assert LinkAt(s, c, i + 1) && e[i] == c[i + 1];
    }
  }

  datatype Outcome = Added | Ran | Ignored | Panic

  /** The new timer has passed m others: those are in place, and `rest` of its delay is left. */
  ghost predicate Sinking(list: seq<Timer>, j: int, fn: nat, now: seq<Timer>, m: nat, rest: int) {
    && m <= |list| && now == list[..m] + [Timer(rest, fn)] + list[m..]
    && Inserted(list, j, fn) == list[..m] + Inserted(list[m..], rest, fn)
  }

  lemma SinkingBegins(list: seq<Timer>, j: int, fn: nat)
    ensures Sinking(list, j, fn, [Timer(j, fn)] + list, 0, j)
  {
    assert list[..0] == [] && list[0..] == list;
  }

  lemma SinkStep(list: seq<Timer>, j: int, fn: nat, now: seq<Timer>, m: nat, rest: int)
    requires Sinking(list, j, fn, now, m, rest) && m + 1 < |now| && now[m + 1].delta < now[m].delta
    ensures m < |list|
    ensures Sinking(list, j, fn, now[m := now[m + 1]][m + 1 := Timer(now[m].delta - now[m + 1].delta, now[m].fn)],
            m + 1, rest - list[m].delta)
  {
    assert now[m] == Timer(rest, fn) && now[m + 1] == list[m];
    assert list[m..][1..] == list[m + 1..];
    assert list[..m] + [list[m]] == list[..m + 1];
  }

  lemma SinkingEnds(list: seq<Timer>, j: int, fn: nat, now: seq<Timer>, m: nat, rest: int)
    requires Sinking(list, j, fn, now, m, rest) && (m + 1 < |now| ==> now[m + 1].delta >= now[m].delta)
    ensures now == Inserted(list, j, fn)
  {
    assert now[m] == Timer(rest, fn) && (m < |list| ==> now[m + 1] == list[m]);
  }

  /** The timers `ran` of the list have run, and `now` is left. */
  ghost predicate Running(list: seq<Timer>, ran: seq<nat>, now: seq<Timer>) {
    && |ran| <= |list| && now == list[|ran|..] && Popped(now) == Popped(list)
       && forall i: nat | i < |ran| :: ran[i] == list[i].fn
  }

  lemma RunningOn(list: seq<Timer>, ran: seq<nat>, now: seq<Timer>)
    requires Running(list, ran, now) && now != [] && now[0].delta <= 0
    ensures Running(list, ran + [now[0].fn], now[1..])
  {}

  lemma RunningEnds(list: seq<Timer>, ran: seq<nat>, now: seq<Timer>)
    requires Running(list, ran, now) && (now == [] || now[0].delta > 0)
    ensures now == Popped(list) && |ran| == |list| - |now| && forall i: nat | i < |ran| :: ran[i] == list[i].fn
  {}

  lemma RunningBegins(list: seq<Timer>)
    ensures Running(list, [], list)
  {}

  class TimerTable {
    const delta: array<int>
    const fn: array<nat>
    const next: array<nat>
    var first: nat
    ghost var chain: seq<nat>

    ghost function S(): Slots
      reads this, delta, fn, next
    {
      Slots(delta[..], fn[..], next[..], first)
    }

    ghost predicate Valid()
      reads this, delta, fn, next
    {
      fn != next && Rep(S(), chain)
    }

    ghost function Pending(): seq<Timer>
      reads this, delta, fn, next
    {
      List(S(), chain)
    }

    constructor ()
      ensures Valid() && Pending() == []
    {
      delta, fn, next := new int[TIME_REQUESTS], new nat[TIME_REQUESTS](_ => 0), new nat[TIME_REQUESTS];
      first, chain := TIME_REQUESTS, [];
    }

    /** add_timer: a timer that is due already is run at once. */
    method AddTimer(jiffies: int, f: nat) returns (o: Outcome)
      requires Valid()
      modifies this, delta, fn, next
      ensures Valid()
      ensures o == if f == 0 then Ignored else if jiffies <= 0 then Ran else if |old(Pending())| == TIME_REQUESTS
              then Panic else Added
      ensures Pending() == if o == Added then Inserted(old(Pending()), jiffies, f) else old(Pending())
    {
      if f == 0 { return Ignored; }
      if jiffies <= 0 { return Ran; }
      ghost var list := Pending();
      var p := FreeSlot();
      if p == TIME_REQUESTS { return Panic; }
      PutRep(S(), chain, p, jiffies, f);
      ghost var s := S();
      fn[p], delta[p], next[p] := f, jiffies, first;
      first, chain := p, [p] + chain;
      assert S() == Put(s, p, jiffies, f);
      Sink(p, jiffies, f, list);
      o := Added;
    }

    /** The first slot not in use. */
    method FreeSlot() returns (p: nat)
      requires Valid()
      ensures p <= TIME_REQUESTS && (p < TIME_REQUESTS ==> fn[p] == 0)
              && (p == TIME_REQUESTS <==> |chain| == TIME_REQUESTS)
    {
      p := 0;
      while p < TIME_REQUESTS && fn[p] != 0
        invariant p <= TIME_REQUESTS && forall t: nat | t < p :: fn[..][t] != 0
      {
        p := p + 1;
      }
      forall i: nat | i < |chain| ensures chain[i] < TIME_REQUESTS { assert LinkAt(S(), chain, i); }
      Pigeons(chain, TIME_REQUESTS);
      assert p < TIME_REQUESTS ==> p !in chain;
    }

    /** The loop of add_timer. */
    method Sink(p0: nat, jiffies: int, f: nat, ghost list: seq<Timer>)
      requires Valid() && chain != [] && p0 == chain[0] && Pending() == [Timer(jiffies, f)] + list
      modifies delta, fn
      ensures Valid() && Pending() == Inserted(list, jiffies, f)
    {
      var p := p0;
      ghost var m, rest := 0, jiffies;
      SinkingBegins(list, jiffies, f);
      var later := NextIsSooner(p, m);
      hide *;
      while later
        invariant Valid() && m < |chain| == |list| + 1 && p == chain[m] && Sinking(list, jiffies, f, Pending(), m, rest)
        invariant |Pending()| == |chain| && (later <==> m + 1 < |chain| && Pending()[m + 1].delta < Pending()[m].delta)
        decreases |chain| - m
      {
        p, rest := SinkTurn(p, m, jiffies, f, list, rest);
        m := m + 1;
        later := NextIsSooner(p, m);
      }
      SinkingEnds(list, jiffies, f, Pending(), m, rest);
    }

    /** Its body, with what it means. */
    method SinkTurn(p: nat, ghost m: nat, ghost jiffies: int, ghost f: nat, ghost list: seq<Timer>, ghost rest: int)
      returns (q: nat, ghost less: int)
      requires Valid() && m + 1 < |chain| && p == chain[m] && |Pending()| == |chain|
               && Pending()[m + 1].delta < Pending()[m].delta
      requires Sinking(list, jiffies, f, Pending(), m, rest)
      modifies delta, fn
      ensures Valid() && q == chain[m + 1] && Sinking(list, jiffies, f, Pending(), m + 1, less)
    {
      SinkStep(list, jiffies, f, Pending(), m, rest);
      less := rest - list[m].delta;
      hide *;
      q := SinkOne(p, m);
    }

    /** The condition of that loop. */
    method NextIsSooner(p: nat, ghost m: nat) returns (b: bool)
      requires Valid() && m < |chain| && p == chain[m]
      ensures |Pending()| == |chain| && (b <==> m + 1 < |chain| && Pending()[m + 1].delta < Pending()[m].delta)
    {
      SlotFacts(S(), chain, m);
      b := next[p] != TIME_REQUESTS && delta[next[p]] < delta[p];
    }

    /** The exchange of two slots. */
    method SinkOne(p: nat, ghost m: nat) returns (q: nat)
      requires Valid() && m + 1 < |chain| && p == chain[m]
      modifies delta, fn
      ensures Valid() && q == chain[m + 1]
      ensures var l := old(Pending());
              |l| == |chain| && Pending() == l[m := l[m + 1]][m + 1 := Timer(l[m].delta - l[m + 1].delta, l[m].fn)]
    {
      SlotFacts(S(), chain, m);
      q := next[p];
      SunkRep(S(), chain, m);
      hide Rep, List;
      ghost var s := S();
      DifferentSlots(s, chain, m);
      delta[p] := delta[p] - delta[q];
      fn[p], fn[q] := fn[q], fn[p];
      delta[p], delta[q] := delta[q], delta[p];
      assert S() == Sunk(s, p, q);
    }

    /** The timer part of do_timer; the functions that run are returned, in order. */
    method DoTimer() returns (ran: seq<nat>)
      requires Valid()
      modifies this, delta, fn
      ensures Valid() && Pending() == Ticked(old(Pending()))
      ensures |ran| == |old(Pending())| - |Pending()| && forall i: nat | i < |ran| :: ran[i] == old(Pending())[i].fn
    {
      ran := [];
      ghost var was := Pending();
      SlotFacts(S(), chain, 0);
      if first == TIME_REQUESTS { return; }
      TickRep(S(), chain);
      ghost var s := S();
      delta[first] := delta[first] - 1;
      assert S() == s.(delta := s.delta[first := s.delta[first] - 1]);
      ran := RunDue();
    }

    /** Its loop. */
    method RunDue() returns (ran: seq<nat>)
      requires Valid()
      modifies this, fn
      ensures Valid() && Pending() == Popped(old(Pending()))
      ensures |ran| == |old(Pending())| - |Pending()| && forall i: nat | i < |ran| :: ran[i] == old(Pending())[i].fn
    {
      ran := [];
      ghost var list := Pending();
      RunningBegins(list);
      var due := FirstDue();
      hide *;
      while due
        invariant Valid() && Running(list, ran, Pending()) && (due <==> Pending() != [] && Pending()[0].delta <= 0)
        decreases |Pending()|
      {
        RunningOn(list, ran, Pending());
        var f := RunFirst();
        ran := ran + [f];
        due := FirstDue();
      }
      RunningEnds(list, ran, Pending());
    }

    method FirstDue() returns (b: bool)
      requires Valid()
      ensures b <==> Pending() != [] && Pending()[0].delta <= 0
    {
      SlotFacts(S(), chain, 0);
      b := first != TIME_REQUESTS && delta[first] <= 0;
    }

    /** One timer that is due. */
    method RunFirst() returns (f: nat)
      requires Valid() && Pending() != []
      modifies this, fn
      ensures Valid() && f == old(Pending())[0].fn && Pending() == old(Pending())[1..]
    {
      SlotFacts(S(), chain, 0);
      WithoutFirstRep(S(), chain);
      ghost var s := S();
      f := fn[first];
      fn[first] := 0;
      first, chain := next[first], chain[1..];
      assert S() == WithoutFirst(s);
    }
  }

  /** What is in slot m of the chain, and where it leads. */
  lemma SlotFacts(s: Slots, c: seq<nat>, m: nat)
    requires Rep(s, c)
    ensures |s.delta| == |s.fn| == |s.next| == TIME_REQUESTS && s.first == Nth(c, 0)
            && (c != [] <==> s.first != TIME_REQUESTS)
    ensures m < |c| ==>
              c[m] < TIME_REQUESTS && s.next[c[m]] == Nth(c, m + 1)
              && List(s, c)[m] == Timer(s.delta[c[m]], s.fn[c[m]])
    ensures m + 1 < |c| ==> c[m + 1] < TIME_REQUESTS && List(s, c)[m + 1] == Timer(s.delta[c[m + 1]], s.fn[c[m + 1]])
  {
    assert c != [] ==> LinkAt(s, c, 0);
    assert m < |c| ==> LinkAt(s, c, m);
    assert m + 1 < |c| ==> LinkAt(s, c, m + 1);
  }

  lemma DifferentSlots(s: Slots, c: seq<nat>, m: nat)
    requires Rep(s, c) && m + 1 < |c|
    ensures c[m] != c[m + 1] && |s.delta| == |s.fn| == |s.next| == TIME_REQUESTS
  {}

  lemma TickRep(s: Slots, c: seq<nat>)
    requires Rep(s, c) && c != [] && s.first < TIME_REQUESTS
    ensures var t, l := s.(delta := s.delta[s.first := s.delta[s.first] - 1]), List(s, c);
            Rep(t, c) && List(t, c) == [Timer(l[0].delta - 1, l[0].fn)] + l[1..]
  {
    var t := s.(delta := s.delta[s.first := s.delta[s.first] - 1]);
    forall i: nat | i < |c| ensures LinkAt(t, c, i) { assert LinkAt(s, c, i); }
  }
}
