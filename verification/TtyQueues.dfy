/** kernel/chr_drv/tty_io.c and include/linux/tty.h: copy_to_cooked and tty_read on the ring buffers. */
module TtyQueues {
  import opened Options
  import opened Tty

  function Chars(head: nat, tail: nat): (n: nat)
    requires head < SIZE && tail < SIZE
    ensures n < SIZE
  {
    (head - tail) % SIZE
  }

  function Left(head: nat, tail: nat): (n: nat)
    requires head < SIZE && tail < SIZE
    ensures n == SIZE - 1 - Chars(head, tail)
  {
    (tail - head - 1) % SIZE
  }

  function Ring(buf: seq<Char>, head: nat, tail: nat): (r: seq<Char>)
    requires |buf| == SIZE && head < SIZE && tail < SIZE
    ensures |r| == Chars(head, tail) && forall i | 0 <= i < |r| :: r[i] == buf[(tail + i) % SIZE]
  {
    seq(Chars(head, tail), i requires 0 <= i => buf[(tail + i) % SIZE])
  }

  lemma RingGet(buf: seq<Char>, head: nat, tail: nat)
    requires |buf| == SIZE && head < SIZE && tail < SIZE && head != tail
    ensures var q := Ring(buf, head, tail); q != [] && q[0] == buf[tail] && Ring(buf, head, (tail + 1) % SIZE) == q[1..]
  {
    var q, now := Ring(buf, head, tail), (tail + 1) % SIZE;
    assert Chars(head, now) == Chars(head, tail) - 1;
    forall i | 0 <= i < Chars(head, now) ensures Ring(buf, head, now)[i] == q[1 + i] {
      assert (now + i) % SIZE == (tail + (1 + i)) % SIZE;
    }
  }

  lemma RingPut(buf: seq<Char>, head: nat, tail: nat, c: Char)
    requires |buf| == SIZE && head < SIZE && tail < SIZE && Left(head, tail) > 0
    ensures Ring(buf[head := c], (head + 1) % SIZE, tail) == Ring(buf, head, tail) + [c]
  {
    var q, n, after := Ring(buf, head, tail), Chars(head, tail), Ring(buf[head := c], (head + 1) % SIZE, tail);
    assert |after| == n + 1;
    forall i | 0 <= i < n + 1 ensures after[i] == (q + [c])[i] { PutAt(head, tail, i); }
  }

  lemma PutAt(head: nat, tail: nat, i: nat)
    requires head < SIZE && tail < SIZE && i <= Chars(head, tail)
    ensures (tail + i) % SIZE == head <==> i == Chars(head, tail)
  {}

  lemma EmptyRing(buf: seq<Char>, head: nat, tail: nat)
    requires |buf| == SIZE && head < SIZE && tail < SIZE
    ensures head == tail <==> Ring(buf, head, tail) == []
  {}

  lemma RingBack(buf: seq<Char>, head: nat, tail: nat)
    requires |buf| == SIZE && head < SIZE && tail < SIZE && head != tail
    ensures var q := Ring(buf, head, tail);
            q != [] && q[|q| - 1] == buf[(head - 1) % SIZE] && Ring(buf, (head - 1) % SIZE, tail) == q[..|q| - 1]
  {
    var q, now := Ring(buf, head, tail), (head - 1) % SIZE;
    assert Chars(now, tail) == Chars(head, tail) - 1;
    assert (tail + (|q| - 1)) % SIZE == now by { PutAt(now, tail, |q| - 1); }
    assert Ring(buf, now, tail) == q[..|q| - 1] by {
      forall i | 0 <= i < |q| - 1 ensures Ring(buf, now, tail)[i] == q[i] {}
    }
  }

  class TtyStruct {
    const t: Termios
    const readBuf: array<Char>
    const buf: array<Char>           // secondary.buf
    var readHead: nat
    var readTail: nat
    var head: nat
    var tail: nat
    var data: int
    var stopped: bool
    var intrs: nat
    var quits: nat

    ghost predicate Valid()
      reads this
    {
      && readBuf.Length == buf.Length == SIZE && readBuf != buf
      && readHead < SIZE && readTail < SIZE && head < SIZE && tail < SIZE
    }

    ghost function Incoming(): seq<Char>
      requires Valid()
      reads this, readBuf
    {
      Ring(readBuf[..], readHead, readTail)
    }

    ghost function S(): State
      requires Valid()
      reads this, buf
    {
      State(Ring(buf[..], head, tail), data, stopped, intrs, quits)
    }

    /** copy_to_cooked: the incoming characters, as far as there is room, are edited into the queue. */
    method CopyToCooked() returns (ghost n: nat)
      requires Valid()
      modifies this, buf
      ensures Valid() && n <= |old(Incoming())|
      ensures S() == Fold(t, old(S()), old(Incoming())[..n]) && Incoming() == old(Incoming())[n..]
      ensures Incoming() == [] || |S().q| == SIZE - 1
    {
      ghost var input, s := Incoming(), S();
      n := 0;
      CookedNone(t, s, input);
      while readHead != readTail && Left(head, tail) != 0
        invariant Valid() && Cooked(t, s, input, n, S(), Incoming())
        decreases |input| - n
      {
        hide *;
        ghost var u, rest := S(), Incoming();
        CookNext();
        CookedMore(t, s, input, n, u, rest, S(), Incoming());
        n := n + 1;
      }
      EmptyRing(readBuf[..], readHead, readTail);
    }

    /** One turn of its loop. */
    method CookNext()
      requires Valid() && readHead != readTail && Left(head, tail) != 0
      modifies this, buf
      ensures Valid() && old(Incoming()) != [] && Incoming() == old(Incoming())[1..]
              && S() == Cook(t, old(S()), old(Incoming())[0])
    {
      RingGet(readBuf[..], readHead, readTail);
      var c := readBuf[readTail];
      readTail := (readTail + 1) % SIZE;
      EditSecondary(c);
    }

    method EditSecondary(c0: Char)
      requires Valid() && Left(head, tail) != 0
      modifies `head, `data, `stopped, `intrs, `quits, buf
      ensures Valid() && S() == Cook(t, old(S()), c0)
    {
      hide Ring, Chars, Left, Completed, Shorter;
      var c := c0;
      if c == CR {
        if t.crnl { c := NL; } else if t.nocr { return; }
      } else if c == NL && t.nlcr {
        c := CR;
      }
      if t.uclc { c := Lower(c); }
      assert Mapped(t, c0) == Some(c);
      if t.canon {
        if c == t.kill {
          KillLine();
          return;
        }
        if c == t.erase {
          EraseLast();
          return;
        }
        if c == t.stop {
          stopped := true;
          return;
        }
        if c == t.start {
          stopped := false;
          return;
        }
      }
      if t.isig {
        if c == t.intr {
          intrs := intrs + 1;
          return;
        }
        if c == t.quit {
          quits := quits + 1;
          return;
        }
      }
      PutSecondary(c);
    }

    method PutSecondary(c: Char)
      requires Valid() && Left(head, tail) != 0
      modifies `head, `data, buf
      ensures Valid() && S() == Apply(t, old(S()), Put(c))
    {
      RingPut(buf[..], head, tail, c);
      hide Ring;
      if c == NL || c == t.eof { data := data + 1; }
      buf[head] := c;
      head := (head + 1) % SIZE;
    }

    method EraseLast()
      requires Valid()
      modifies `head
      ensures Valid() && S() == Apply(t, old(S()), Erase)
    {
      EmptyRing(buf[..], head, tail);
      if head == tail { return; }
      RingBack(buf[..], head, tail);
      hide Ring;
      var last := buf[(head - 1) % SIZE];
      if last == NL || last == t.eof { return; }
      head := (head - 1) % SIZE;
    }

    method KillLine()
      requires Valid()
      modifies `head
      ensures Valid() && S() == Apply(t, old(S()), Kill)
    {
      hide Ring, Chars;
      ghost var q := S().q;
      var last := Last();
      while last != None && last != Some(NL) && !(last.Some? && last.value == t.eof)
        invariant Valid() && S() == old(S()).(q := S().q) && Completed(t, S().q) == Completed(t, q)
        invariant last == if S().q == [] then None else Some(S().q[|S().q| - 1])
        decreases |S().q|
      {
        DecHead();
        last := Last();
      }
    }

    /** EMPTY and LAST */
    method Last() returns (c: Option<Char>)
      requires Valid()
      ensures c == if S().q == [] then None else Some(S().q[|S().q| - 1])
    {
      EmptyRing(buf[..], head, tail);
      if head == tail { return None; }
      RingBack(buf[..], head, tail);
      c := Some(buf[(head - 1) % SIZE]);
    }

    method DecHead()
      requires Valid() && S().q != []
      modifies `head
      ensures Valid() && S() == old(S()).(q := old(S()).q[..|old(S()).q| - 1])
    {
      EmptyRing(buf[..], head, tail);
      RingBack(buf[..], head, tail);
      head := (head - 1) % SIZE;
    }

    /** Whether tty_read goes on, or sleeps: in canonical mode it waits for a whole line, unless the queue is
        nearly full. */
    method Ready() returns (ok: bool)
      requires Valid() && data == Marks(t, S().q)
      ensures ok <==> S().q != [] && (!t.canon || Completed(t, S().q) != [] || |S().q| >= SIZE - 21)
    {
      MarksOfCompleted(t, S().q);
      ok := !(head == tail || (t.canon && data == 0 && Left(head, tail) > 20));
      assert head == tail <==> |S().q| == 0;
    }

    /** GETCH, and the count that goes with it. */
    method GetSecondary() returns (c: Char)
      requires Valid() && head != tail
      modifies `tail, `data
      ensures Valid()
      ensures var s := old(S());
              s.q != [] && c == s.q[0] && S() == s.(q := s.q[1..], data := s.data - if Mark(t, c) then 1 else 0)
    {
      RingGet(buf[..], head, tail);
      hide Ring, Chars;
      c := buf[tail];
      tail := (tail + 1) % SIZE;
      if c == t.eof || c == NL { data := data - 1; }
    }

    /** The inner loop of tty_read, once there is something: characters go to the reader until he has nr, an
        end-of-file mark is met, or the queue is empty. */
    method TakeChars(nr: nat) returns (out: seq<Char>, eof: bool)
      requires Valid() && nr > 0 && head != tail
      modifies `tail, `data
      ensures Valid() && Delivered(t, old(S()), nr, out, eof, S())
    {
      out, eof := [], false;
      ghost var s := S();
      EmptyRing(buf[..], head, tail);
      TakingNone(t, s);
      while true
        invariant Valid() && |out| < nr && S().q != [] && head != tail && Taking(t, s, out, S())
        decreases nr - |out|
      {
        hide *;
        TakingMore(t, s, nr, out, S());
        var c := GetSecondary();
        if c == t.eof && t.canon {
          eof := true;
          return;
        }
        out := out + [c];
        if |out| == nr { return; }
        EmptyRing(buf[..], head, tail);
        if head == tail { return; }
      }
    }
  }

  /** What a reader who wants nr characters gets of the queue s, and what he leaves: the characters in order,
      up to nr, the end of the queue, or an end-of-file mark, which is taken too. */
  ghost predicate Delivered(t: Termios, s: State, nr: nat, out: seq<Char>, eof: bool, u: State) {
    var k := |out| + (if eof then 1 else 0);
    && k <= |s.q| && out == s.q[..|out|] && |out| <= nr && u == Drop(t, s, k)
    && (t.canon ==> forall i | 0 <= i < |out| :: out[i] != t.eof)
    && (if eof then t.canon && |out| < nr && s.q[|out|] == t.eof else |out| == nr || k == |s.q|)
  }

  /** A reader who wants nr characters harms the editing exactly when he neither stops at an end-of-file mark
      nor has enough in the finished lines, and there is more in the queue than those: the loop of tty_read
      does not stop at a newline. */
  lemma DeliveredSettled(t: Termios, s: State, nr: nat, out: seq<Char>, eof: bool, u: State)
    requires Delivered(t, s, nr, out, eof, u)
    ensures var k, lines := |out| + (if eof then 1 else 0), Completed(t, s.q);
            Settled(t, s.q, k) <==> !CanEdit(t) || eof || nr <= |lines| || lines == s.q
    ensures eof <==> t.canon && exists i :: 0 <= i < nr && i < |s.q| && s.q[i] == t.eof
  {
    CompletedIs(t, s.q);
    if eof {
      assert s.q[|out|] == t.eof;
    } else if t.canon {
      forall i | 0 <= i < nr && i < |s.q| ensures s.q[i] != t.eof { assert s.q[i] == out[i]; }
    }
  }

  /** The control characters of include/linux/tty.h, with line editing. */
  function Initial(): Termios { Termios(true, false, false, false, true, true, 3, 28, 127, 21, 4, 17, 19) }

  /** Typing ahead is enough: the reader asks for ten characters when `a`, a newline and `b` wait, and gets
      all three; the user takes `b` back, but it has been read. */
  lemma TypedAheadIsRead()
    ensures var t, s := Initial(), State([97, 10, 98], 1, false, 0, 0);
            var u := Drop(t, s, 3);
            && Fold(t, State([], 0, false, 0, 0), [97, 10, 98]) == s && Delivered(t, s, 10, [97, 10, 98], false, u)
            && !Settled(t, s.q, 3) && !Split(t, Fold(t, s, [t.kill]), [97, 10, 98], Fold(t, u, [t.kill]))
  {
    var t, s := Initial(), State([97, 10, 98], 1, false, 0, 0);
    var one: seq<Char>, two: seq<Char> := [97], [97, 10];
    FoldOne(t, State([], 0, false, 0, 0), [], 97);
    FoldOne(t, State([], 0, false, 0, 0), one, 10);
    FoldOne(t, State([], 0, false, 0, 0), two, 98);
    assert s.q[..2] == two && s.q[..3] == s.q;
    assert EditOf(t, t.kill) == Kill;
    FoldOne(t, s, [], t.kill);
  }

  /** The reader has got `out` of s, and u is left. */
  ghost predicate Taking(t: Termios, s: State, out: seq<Char>, u: State) {
    && |out| <= |s.q| && out == s.q[..|out|] && u == Drop(t, s, |out|) && |u.q| == |s.q| - |out|
    && (t.canon ==> forall i | 0 <= i < |out| :: out[i] != t.eof)
  }

  lemma TakingNone(t: Termios, s: State)
    ensures Taking(t, s, [], s)
  {
    DropNone(t, s);
  }

  lemma TakingMore(t: Termios, s: State, nr: nat, out: seq<Char>, u: State)
    requires Taking(t, s, out, u) && u.q != [] && |out| < nr
    ensures var c, v := u.q[0], u.(q := u.q[1..], data := u.data - if Mark(t, u.q[0]) then 1 else 0);
            if c == t.eof && t.canon then Delivered(t, s, nr, out, true, v)
            else Taking(t, s, out + [c], v) && (|out| + 1 == nr || v.q == [] ==>
                Delivered(t, s, nr, out + [c], false, v))
  {
    DropOne(t, s, |out|);
    assert out + [u.q[0]] == s.q[..|out| + 1];
  }

  /** n characters of the input have been edited into the queue. */
  ghost predicate Cooked(t: Termios, s: State, input: seq<Char>, n: nat, u: State, rest: seq<Char>) {
    n <= |input| && rest == input[n..] && u == Fold(t, s, input[..n])
  }

  lemma CookedNone(t: Termios, s: State, input: seq<Char>)
    ensures Cooked(t, s, input, 0, s, input)
  {}

  lemma CookedMore(t: Termios, s: State, input: seq<Char>, n: nat, u: State, rest: seq<Char>, v: State, more: seq<Char>)
    requires Cooked(t, s, input, n, u, rest) && rest != [] && more == rest[1..] && v == Cook(t, u, rest[0])
    ensures n < |input| && Cooked(t, s, input, n + 1, v, more)
  {
    FoldOne(t, s, input[..n], input[n]);
    assert input[..n + 1] == input[..n] + [input[n]];
  }

  lemma {:induction false} MarksOfCompleted(t: Termios, q: seq<Char>)
    ensures Marks(t, q) == 0 <==> Completed(t, q) == []
  {
    if q != [] && !Mark(t, q[|q| - 1]) { MarksOfCompleted(t, q[..|q| - 1]); }
  }

  lemma DropNone(t: Termios, s: State)
    ensures Drop(t, s, 0) == s
  {}

  lemma DropOne(t: Termios, s: State, k: nat)
    requires k < |s.q|
    ensures var u := Drop(t, s, k);
            u.q != [] && u.q[0] == s.q[k] && Drop(t, s, k + 1) == u.(q := u.q[1..], data :=
                u.data - if Mark(t, s.q[k]) then 1 else 0)
  {
    MarksPushed(t, s.q[..k], s.q[k]);
    assert s.q[..k + 1] == s.q[..k] + [s.q[k]];
  }
}
