/** fs/pipe.c: a pipe is one page used as a ring, and readers and writers that sleep on the same queue. */
module Pipe {
  const PAGE_SIZE := 4096
  const CAPACITY := PAGE_SIZE - 1

  type Byte = b: nat | b < 256

  function Min(a: int, b: int): int { if a < b then a else b }

  // ---- Any number of readers and writers ----

  /** A process outside the pipe, or in the middle of a call; `asleep` until somebody wakes the queue. */
  datatype Proc = Away | Reads(left: nat, asleep: bool) | Writes(rest: seq<Byte>, asleep: bool)

  datatype State = State(queue: seq<Byte>, procs: seq<Proc>)

  /** A call begins; a process that is awake runs until it sleeps or returns.  `both` says whether the
      pipe has two ends open (i_count == 2). */
  datatype Step = Read(p: nat, n: nat) | Write(p: nat, bytes: seq<Byte>) | Go(p: nat, both: bool)

  predicate Enabled(s: State, step: Step) {
    && step.p < |s.procs|
    && match step
       case Read(p, n) => s.procs[p].Away?
       case Write(p, bytes) => s.procs[p].Away?
       case Go(p, both) => !s.procs[p].Away? && !s.procs[p].asleep
  }

  function Awake(x: Proc): Proc {
    match x
    case Away => Away
    case Reads(left, _) => Reads(left, false)
    case Writes(rest, _) => Writes(rest, false)
  }

  function WakeAll(procs: seq<Proc>): (r: seq<Proc>)
    ensures |r| == |procs| && forall i | 0 <= i < |r| :: r[i] == Awake(procs[i])
  {
    seq(|procs|, i requires 0 <= i < |procs| => Awake(procs[i]))
  }

  /** How much a reader that wants n bytes takes before it must sleep or return, and a writer puts. */
  function Takes(queue: seq<Byte>, n: nat): (k: nat)
    ensures k <= n && k <= |queue|
  {
    if n < |queue| then n else |queue|
  }

  function Puts(queue: seq<Byte>, n: nat): (k: nat)
    ensures k <= n
  {
    if |queue| >= CAPACITY then 0 else Min(n, CAPACITY - |queue|)
  }

  /** What a step takes out of the pipe, and what it puts in. */
  function Got(s: State, step: Step): seq<Byte>
    requires Enabled(s, step)
  {
    if step.Go? && s.procs[step.p].Reads? then s.queue[..Takes(s.queue, s.procs[step.p].left)] else []
  }

  function Put(s: State, step: Step): seq<Byte>
    requires Enabled(s, step)
  {
    if step.Go? && s.procs[step.p].Writes? then s.procs[step.p].rest[..Puts(s.queue, |s.procs[step.p].rest|)] else []
  }

  /** Process x after it has moved n bytes: it sleeps while there is more to do and somebody to do it with. */
  function Advanced(x: Proc, n: nat, both: bool): Proc
    requires x.Reads? ==> n <= x.left
    requires x.Writes? ==> n <= |x.rest|
  {
    match x
    case Away => Away
    case Reads(left, _) => if n < left && both then Reads(left - n, true) else Away
    case Writes(rest, _) => if n < |rest| && both then Writes(rest[n..], true) else Away
  }

  function Next(s: State, step: Step): State
    requires Enabled(s, step)
  {
    match step
    case Read(p, n) => s.(procs := s.procs[p := Reads(n, false)])
    case Write(p, bytes) => s.(procs := s.procs[p := Writes(bytes, false)])
    case Go(p, both) =>
      State(s.queue[|Got(s, step)|..] + Put(s, step),
            WakeAll(s.procs)[p := Advanced(s.procs[p], |Got(s, step)| + |Put(s, step)|, both)])
  }

  /** The pipe never holds too much, and a process sleeps only while it really cannot go on. */
  ghost predicate Inv(s: State) {
    && |s.queue| <= CAPACITY
    && (forall p | 0 <= p < |s.procs| :: SleepsWell(s, p))
    && (forall p, q | 0 <= p < |s.procs| && 0 <= q < |s.procs| && Asleep(s.procs[p]) && Asleep(s.procs[q]) :: p == q)
  }

  predicate Asleep(x: Proc) { !x.Away? && x.asleep }

  predicate SleepsWell(s: State, p: nat)
    requires p < |s.procs|
  {
    match s.procs[p]
    case Away => true
    case Reads(left, asleep) => asleep ==> left > 0 && s.queue == []
    case Writes(rest, asleep) => asleep ==> rest != [] && |s.queue| == CAPACITY
  }

  lemma StepKeeps(s: State, step: Step)
    requires Inv(s) && Enabled(s, step)
    ensures Inv(Next(s, step))
  {
    var t := Next(s, step);
    if step.Go? {
      assert forall i | 0 <= i < |t.procs| && i != step.p :: !Asleep(t.procs[i]) && SleepsWell(t, i);
      assert SleepsWell(t, step.p);
    } else {
      assert forall i | 0 <= i < |t.procs| && i != step.p :: t.procs[i] == s.procs[i] && SleepsWell(s, i);
      assert SleepsWell(t, step.p) && !Asleep(t.procs[step.p]);
    }
  }

  ghost predicate Ran(run: seq<State>, steps: seq<Step>) {
    && |run| == |steps| + 1
    && forall i | 0 <= i < |steps| :: Enabled(run[i], steps[i]) && run[i + 1] == Next(run[i], steps[i])
  }

  // ---- What goes in comes out ----

  /** Whose bytes are counted: those of one process, or of all of them. */
  datatype Who = One(p: nat) | Everybody

  predicate Counts(w: Who, step: Step) { w == Everybody || w == One(step.p) }

  function GotBy(s: State, step: Step, w: Who): seq<Byte>
    requires Enabled(s, step)
  {
    if Counts(w, step) then Got(s, step) else []
  }

  function PutBy(s: State, step: Step, w: Who): seq<Byte>
    requires Enabled(s, step)
  {
    if Counts(w, step) then Put(s, step) else []
  }

  /** The bytes that w has taken out of the pipe over a run, and put into it. */
  ghost function AllGot(run: seq<State>, steps: seq<Step>, w: Who): seq<Byte>
    requires Ran(run, steps)
    decreases |steps|
  {
    if steps == [] then []
    else
      var k := |steps| - 1;
      AllGot(run[..k + 1], steps[..k], w) + GotBy(run[k], steps[k], w)
  }

  ghost function AllPut(run: seq<State>, steps: seq<Step>, w: Who): seq<Byte>
    requires Ran(run, steps)
    decreases |steps|
  {
    if steps == [] then []
    else
      var k := |steps| - 1;
      AllPut(run[..k + 1], steps[..k], w) + PutBy(run[k], steps[k], w)
  }

  /** First in, first out, for every interleaving: what has been read followed by what is in the pipe is
      what was in it and what has been written, and nobody sleeps while he could go on. */
  lemma {:induction false} Fifo(run: seq<State>, steps: seq<Step>)
    requires Ran(run, steps) && Inv(run[0])
    ensures run[0].queue + AllPut(run, steps, Everybody) == AllGot(run, steps, Everybody) + run[|steps|].queue
    ensures Inv(run[|steps|])
    decreases |steps|
  {
    if steps != [] {
      var k := |steps| - 1;
      assert Ran(run[..k + 1], steps[..k]);
      Fifo(run[..k + 1], steps[..k]);
      StepKeeps(run[k], steps[k]);
      var s, step := run[k], steps[k];
      OneMore(run[0].queue, AllPut(run[..k + 1], steps[..k], Everybody), AllGot(run[..k + 1], steps[..k], Everybody),
              s.queue, Got(s, step), Put(s, step));
    }
  }

  lemma OneMore(start: seq<Byte>, put: seq<Byte>, got: seq<Byte>, queue: seq<Byte>, x: seq<Byte>, y: seq<Byte>)
    requires start + put == got + queue && |x| <= |queue| && x == queue[..|x|]
    ensures start + (put + y) == (got + x) + (queue[|x|..] + y)
  {
    assert queue == x + queue[|x|..];
    assert start + (put + y) == (start + put) + y;
  }

  /** What p is still to write, and to read. */
  function ToWrite(s: State, p: nat): seq<Byte> {
    if p < |s.procs| && s.procs[p].Writes? then s.procs[p].rest else []
  }

  function ToRead(s: State, p: nat): nat { if p < |s.procs| && s.procs[p].Reads? then s.procs[p].left else 0 }

  /** What p has asked to be written, and how much to read. */
  function AskedBy(step: Step, p: nat): seq<Byte> { if step.Write? && step.p == p then step.bytes else [] }

  function WantedBy(step: Step, p: nat): nat { if step.Read? && step.p == p then step.n else 0 }

  function AskedToWrite(steps: seq<Step>, p: nat): seq<Byte> {
    if steps == [] then []
    else
      var k := |steps| - 1;
      AskedToWrite(steps[..k], p) + AskedBy(steps[k], p)
  }

  function AskedToRead(steps: seq<Step>, p: nat): nat {
    if steps == [] then 0
    else
      var k := |steps| - 1;
      AskedToRead(steps[..k], p) + WantedBy(steps[k], p)
  }

  /** While the pipe has both ends, what each process hands to its write calls goes into the pipe byte for
      byte, in order and once, however often it has to sleep in between, and a reader gets as many bytes as
      it asked for. */
  lemma {:induction false} CallsServed(run: seq<State>, steps: seq<Step>, p: nat)
    requires Ran(run, steps) && forall i | 0 <= i < |steps| && steps[i].Go? :: steps[i].both
    ensures AllPut(run, steps, One(p)) + ToWrite(run[|steps|], p) == ToWrite(run[0], p) + AskedToWrite(steps, p)
    ensures |AllGot(run, steps, One(p))| + ToRead(run[|steps|], p) == ToRead(run[0], p) + AskedToRead(steps, p)
    decreases |steps|
  {
    if steps != [] {
      var k := |steps| - 1;
      assert Ran(run[..k + 1], steps[..k]) && Enabled(run[k], steps[k]) && run[k + 1] == Next(run[k], steps[k]);
      assert steps[k].Go? ==> steps[k].both;
      CallsServed(run[..k + 1], steps[..k], p);
      StepServes(run[k], steps[k], p);
      hide *;
      LastStep(run, steps, p);
      Regroup(AllPut(run[..k + 1], steps[..k], One(p)), ToWrite(run[k], p), ToWrite(run[0], p),
              AskedToWrite(steps[..k], p), PutBy(run[k], steps[k], One(p)), AskedBy(steps[k], p),
              ToWrite(run[k + 1], p));
    }
  }

  lemma LastStep(run: seq<State>, steps: seq<Step>, p: nat)
    requires Ran(run, steps) && steps != []
    ensures var k := |steps| - 1;
            && Ran(run[..k + 1], steps[..k]) && Enabled(run[k], steps[k])
            && AllPut(run, steps, One(p)) == AllPut(run[..k + 1], steps[..k], One(p)) + PutBy(run[k], steps[k], One(p))
            && AllGot(run, steps, One(p)) == AllGot(run[..k + 1], steps[..k], One(p)) + GotBy(run[k], steps[k], One(p))
            && AskedToWrite(steps, p) == AskedToWrite(steps[..k], p) + AskedBy(steps[k], p)
            && AskedToRead(steps, p) == AskedToRead(steps[..k], p) + WantedBy(steps[k], p)
  {
    var k := |steps| - 1;
    assert Ran(run[..k + 1], steps[..k]);
    hide Next;
  }

  lemma Regroup(all: seq<Byte>, rest: seq<Byte>, start: seq<Byte>, asked: seq<Byte>, x: seq<Byte>, y: seq<Byte>,
                left: seq<Byte>)
    requires all + rest == start + asked && x + left == rest + y
    ensures (all + x) + left == start + (asked + y)
  {
    assert (all + x) + left == all + (x + left);
    assert all + (rest + y) == (all + rest) + y;
    assert (start + asked) + y == start + (asked + y);
  }

  lemma StepServes(s: State, step: Step, p: nat)
    requires Enabled(s, step) && (step.Go? ==> step.both)
    ensures var t := Next(s, step);
            && PutBy(s, step, One(p)) + ToWrite(t, p) == ToWrite(s, p) + AskedBy(step, p)
            && |GotBy(s, step, One(p))| + ToRead(t, p) == ToRead(s, p) + WantedBy(step, p)
  {
    if step.p == p && ToWrite(s, p) != [] {
      var rest, n := s.procs[p].rest, |Put(s, step)|;
      assert rest == rest[..n] + rest[n..];
    }
  }

  // ---- The ring ----

  function Size(head: nat, tail: nat): (n: nat)
    requires head < PAGE_SIZE && tail < PAGE_SIZE
    ensures n <= CAPACITY
  {
    (head - tail) % PAGE_SIZE
  }

  /** The bytes between tail and head. */
  function Ring(page: seq<Byte>, head: nat, tail: nat): (r: seq<Byte>)
    requires |page| == PAGE_SIZE && head < PAGE_SIZE && tail < PAGE_SIZE
    ensures |r| == Size(head, tail) && forall i | 0 <= i < |r| :: r[i] == page[(tail + i) % PAGE_SIZE]
  {
    seq(Size(head, tail), i requires 0 <= i => page[(tail + i) % PAGE_SIZE])
  }

  lemma RingTaken(page: seq<Byte>, head: nat, tail: nat, k: nat)
    requires |page| == PAGE_SIZE && head < PAGE_SIZE && tail < PAGE_SIZE && k <= Size(head, tail)
             && tail + k <= PAGE_SIZE
    ensures Ring(page, head, tail)[..k] == page[tail..tail + k]
    ensures Ring(page, head, (tail + k) % PAGE_SIZE) == Ring(page, head, tail)[k..]
  {
    var now := (tail + k) % PAGE_SIZE;
    assert Size(head, now) == Size(head, tail) - k;
    forall i | 0 <= i < Size(head, now) ensures Ring(page, head, now)[i] == Ring(page, head, tail)[k + i] {
      assert (now + i) % PAGE_SIZE == (tail + (k + i)) % PAGE_SIZE;
    }
  }

  lemma RingPut(page: seq<Byte>, after: seq<Byte>, head: nat, tail: nat, data: seq<Byte>)
    requires |page| == |after| == PAGE_SIZE && head < PAGE_SIZE && tail < PAGE_SIZE
    requires |data| <= CAPACITY - Size(head, tail) && head + |data| <= PAGE_SIZE
    requires after == page[..head] + data + page[head + |data|..]
    ensures Ring(after, (head + |data|) % PAGE_SIZE, tail) == Ring(page, head, tail) + data
  {
    var n, size := (head + |data|) % PAGE_SIZE, Size(head, tail);
    assert Size(n, tail) == size + |data|;
    forall i | 0 <= i < size + |data| ensures Ring(after, n, tail)[i] == (Ring(page, head, tail) + data)[i] {
      RingPutAt(page, after, head, tail, data, i);
    }
  }

  lemma RingPutAt(page: seq<Byte>, after: seq<Byte>, head: nat, tail: nat, data: seq<Byte>, i: nat)
    requires |page| == |after| == PAGE_SIZE && head < PAGE_SIZE && tail < PAGE_SIZE
    requires i < Size(head, tail) + |data| <= CAPACITY && head + |data| <= PAGE_SIZE
    requires after == page[..head] + data + page[head + |data|..]
    ensures after[(tail + i) % PAGE_SIZE] == if i < Size(head, tail) then page[(tail + i) % PAGE_SIZE]
            else data[i - Size(head, tail)]
  {
    if i < Size(head, tail) {
      Unwritten(head, tail, i, |data|);
    } else {
      assert (tail + i) % PAGE_SIZE == head + (i - Size(head, tail));
    }
  }

  /** The part of the ring in use and the part that is written are apart. */
  lemma Unwritten(head: nat, tail: nat, i: nat, n: nat)
    requires head < PAGE_SIZE && tail < PAGE_SIZE && i < Size(head, tail) && n <= CAPACITY - Size(head, tail)
             && head + n <= PAGE_SIZE
    ensures !(head <= (tail + i) % PAGE_SIZE < head + n)
  {}

  datatype End = Done | Sleeps | OneEnd

  class Inode {
    const page: array<Byte>
    var head: nat
    var tail: nat
    var count: nat                   // i_count

    ghost predicate Valid()
      reads this
    {
      page.Length == PAGE_SIZE && head < PAGE_SIZE && tail < PAGE_SIZE
    }

    ghost function Contents(): seq<Byte>
      requires Valid()
      reads this, page
    {
      Ring(page[..], head, tail)
    }

    /** read_pipe up to its return or the next sleep_on, for reader p of the pipe s.  Before either the queue is
        woken. */
    method ReadPipe(n: nat, ghost s: State, ghost p: nat) returns (out: seq<Byte>, end: End)
      requires Valid() && s.queue == Contents() && p < |s.procs| && s.procs[p] == Reads(n, false)
      modifies `tail
      ensures Valid()
      ensures var e := Go(p, count == 2); var x := Next(s, e).procs[p];
              && out == Got(s, e) && Contents() == Next(s, e).queue
              && (end == Sleeps <==> x == Reads(n - |out|, true)) && (end != Sleeps <==> x == Away)
      ensures var k := Takes(old(Contents()), n);
              && out == old(Contents())[..k] && Contents() == old(Contents())[k..]
              && end == if k == n then Done else if count != 2 then OneEnd else Sleeps
      ensures |out| <= n && (|out| < n ==> Contents() == [])
    {
      hide Ring;
      out := [];
      ghost var was := Contents();
      var left := n;
      while left > 0
        invariant Valid() && 0 <= left && |out| + left == n && |out| <= |was|
        invariant out == was[..|out|] && Contents() == was[|out|..]
      {
        var size := (head - tail) % PAGE_SIZE;
        if size == 0 {
          assert |Contents()| == 0 && |was| == |out| == Takes(was, n);
          end := if count != 2 then OneEnd else Sleeps;
          return;
        }
        var chars := Min(Min(PAGE_SIZE - tail, left), size);
        RingTaken(page[..], head, tail, chars);
        out := out + page[tail..tail + chars];
        left := left - chars;
        tail := (tail + chars) % PAGE_SIZE;
      }
      end := Done;
    }

    /** write_pipe up to its return or the next sleep_on, for writer p. */
    method WritePipe(buf: seq<Byte>, ghost s: State, ghost p: nat) returns (written: nat, end: End)
      requires Valid() && s.queue == Contents() && p < |s.procs| && s.procs[p] == Writes(buf, false)
      modifies `head, page
      ensures Valid()
      ensures && written == Puts(old(Contents()), |buf|) && Contents() == old(Contents()) + buf[..written]
              && end == if written == |buf| then Done else if count != 2 then OneEnd else Sleeps
      ensures var e := Go(p, count == 2); var x := Next(s, e).procs[p];
              && buf[..written] == Put(s, e) && Contents() == Next(s, e).queue
              && (end == Sleeps <==> x == Writes(buf[written..], true)) && (end != Sleeps <==> x == Away)
      ensures written <= |buf| && (written < |buf| ==> |Contents()| == 4095)
    {
      hide Ring;
      written := 0;
      ghost var was := Contents();
      while written < |buf|
        invariant Valid() && 0 <= written <= |buf|
        invariant Contents() == was + buf[..written] && |was| + written <= CAPACITY
      {
        var size := CAPACITY - (head - tail) % PAGE_SIZE;
        if size == 0 {
          end := if count != 2 then OneEnd else Sleeps;
          return;
        }
        var chars := Min(Min(PAGE_SIZE - head, |buf| - written), size);
        var data := buf[written..written + chars];
        CopyIn(data);
        assert buf[..written + chars] == buf[..written] + data;
        head := (head + chars) % PAGE_SIZE;
        written := written + chars;
      }
      end := Done;
    }

    /** The inner loop of write_pipe. */
    method CopyIn(data: seq<Byte>)
      requires Valid() && |data| <= CAPACITY - Size(head, tail) && head + |data| <= PAGE_SIZE
      modifies page
      ensures Ring(page[..], (head + |data|) % PAGE_SIZE, tail) == old(Contents()) + data
    {
      hide Ring;
      ghost var was := page[..];
      var i := 0;
      while i < |data|
        invariant 0 <= i <= |data|
        invariant page[..] == was[..head] + data[..i] + was[head + i..]
      {
        page[head + i] := data[i];
        i := i + 1;
      }
      assert data[..i] == data;
      RingPut(was, page[..], head, tail, data);
    }
  }
}
