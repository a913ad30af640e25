/** fs/exec.c: how the argument and environment strings of execve get onto the new stack. */
module ExecArgs {
  const PAGE_SIZE := 4096
  const MAX_ARG_PAGES := 32
  const ARG_BYTES := MAX_ARG_PAGES * PAGE_SIZE
  const SEGMENT := 0x400_0000

  type Byte = b: nat | b < 256

  predicate Text(s: seq<Byte>) { forall i | 0 <= i < |s| :: s[i] != 0 }

  /** The strings one after the other, each with its terminating zero. */
  function Flat(x: seq<seq<Byte>>): seq<Byte> {
    if x == [] then [] else x[0] + [0] + Flat(x[1..])
  }

  lemma {:induction false} FlatAppend(x: seq<seq<Byte>>, y: seq<seq<Byte>>)
    ensures Flat(x + y) == Flat(x) + Flat(y)
  {
    if x == [] {
      assert x + y == y;
    } else {
      assert (x + y)[1..] == x[1..] + y;
      FlatAppend(x[1..], y);
    }
  }

  lemma FlatLast(x: seq<seq<Byte>>, n: nat)
    requires n < |x|
    ensures Flat(x[..n + 1]) == Flat(x[..n]) + x[n] + [0]
    ensures Flat(x[n..]) == x[n] + [0] + Flat(x[n + 1..])
  {
    var one: seq<seq<Byte>> := [x[n]];
    assert x[..n + 1] == x[..n] + one;
    FlatAppend(x[..n], one);
    assert |one[1..]| == 0;
    assert x[n..][1..] == x[n + 1..];
  }

  /** Memory m holds string s at a. */
  ghost predicate StringAt(m: seq<Byte>, a: nat, s: seq<Byte>) {
    a + |s| < |m| && m[a..a + |s|] == s && m[a + |s|] == 0 && Text(s)
  }

  ghost predicate StringsAt(m: seq<Byte>, at: seq<nat>, x: seq<seq<Byte>>) {
    |at| == |x| && forall i | 0 <= i < |x| :: StringAt(m, at[i], x[i])
  }

  /** Where copy_strings ends: at p, or without memory (it returns 0), or below the argument pages, which
      its own test (line 161, on an unsigned number) does not notice. */
  datatype Copied = At(p: nat) | NoMemory | Overrun

  datatype Copy = Done | Out | Full

  /** A piece put in front of what was copied before. */
  lemma InFront(was: seq<Byte>, mid: seq<Byte>, now: seq<Byte>, q: nat, r: nat, p: nat, piece: seq<Byte>,
                rest: seq<Byte>)
    requires q + |piece| == r && r + |rest| == p && p <= |was|
    requires mid == was[..r] + rest + was[p..] && now == mid[..q] + piece + mid[r..]
    ensures now == was[..q] + (piece + rest) + was[p..]
  {
    assert mid[..q] == was[..q];
    assert mid[r..] == rest + was[p..];
  }

  lemma FlatFrom(x: seq<seq<Byte>>, n: nat)
    requires n <= |x|
    ensures |Flat(x)| >= |Flat(x[n..])|
  {
    FlatAppend(x[..n], x[n..]);
    assert x[..n] + x[n..] == x;
  }

  predicate PageHeld(h: seq<bool>, x: nat) { x / PAGE_SIZE < |h| && h[x / PAGE_SIZE] }

  /** The bytes from q up to p are in pages that are held. */
  ghost predicate Covers(h: seq<bool>, q: nat, p: nat) { forall x: nat | q <= x < p :: PageHeld(h, x) }

  predicate Grown(h: seq<bool>, g: seq<bool>) { |h| == |g| && forall i | 0 <= i < |h| && h[i] :: g[i] }

  lemma CoversMore(h: seq<bool>, g: seq<bool>, q: nat, r: nat, p: nat)
    requires Covers(h, r, p) && Grown(h, g) && Covers(g, q, r)
    ensures Covers(g, q, p)
  {
    forall x: nat | q <= x < p ensures PageHeld(g, x) { assert x >= r ==> PageHeld(h, x); }
  }

  /** The copying has come down from p to q; `done` is what is there now. */
  ghost predicate Copying(was: seq<Byte>, now: seq<Byte>, heldWas: seq<bool>, held: seq<bool>, q: nat, p: nat,
                          done: seq<Byte>) {
    && q + |done| == p <= |was| && now == was[..q] + done + was[p..] && Grown(heldWas, held) && Covers(held, q, p)
  }

  lemma CopiedMore(was: seq<Byte>, mid: seq<Byte>, now: seq<Byte>, h: seq<bool>, i: seq<bool>, j: seq<bool>,
                   q: nat, r: nat, p: nat, piece: seq<Byte>, done: seq<Byte>)
    requires Copying(was, mid, h, i, r, p, done) && Copying(mid, now, i, j, q, r, piece)
    ensures Copying(was, now, h, j, q, p, piece + done)
  {
    InFront(was, mid, now, q, r, p, piece, done);
    CoversMore(i, j, q, r, p);
  }

  class ArgPages {
    const mem: array<Byte>           // where the strings come from
    const bytes: array<Byte>         // the argument pages, page i at i * PAGE_SIZE
    const held: array<bool>          // page[i] != 0
    var free: nat                    // what get_free_page has left

    ghost predicate Valid()
      reads this
    {
      bytes.Length == ARG_BYTES && held.Length == MAX_ARG_PAGES && mem != bytes
    }

    /** The loop that counts a string and its zero. */
    method Length(tmp: nat, ghost s: seq<Byte>) returns (len: nat)
      requires StringAt(mem[..], tmp, s)
      ensures len == |s| + 1
    {
      ghost var m := mem[..];
      assert forall k | 0 <= k < |s| :: m[tmp + k] == m[tmp..tmp + |s|][k] == s[k] != 0;
      len := 1;
      while mem[tmp + len - 1] != 0
        invariant 1 <= len <= |s| + 1
        decreases |s| - len
      {
        len := len + 1;
      }
    }

    /** The page and the offset in it that go with p; offset 0 makes the next byte look its page up. */
    ghost predicate Cursor(p: nat, offset: nat, pag: nat)
      requires Valid()
      reads this, held
    {
      p <= ARG_BYTES && (offset > 0 ==> p < ARG_BYTES && pag == p / PAGE_SIZE && offset == p % PAGE_SIZE && held[pag])
    }

    /** One byte in front of q. */
    method CopyByte(c: Byte, q: nat, offset: nat, pag: nat) returns (o: Copy, newOffset: nat, newPag: nat)
      requires Valid() && Cursor(q, offset, pag)
      modifies `free, bytes, held
      ensures o == Out <==> q == 0
      ensures o == Full ==> free == 0
      ensures o == Done ==>
                Cursor(q - 1, newOffset, newPag)
                && Copying(old(bytes[..]), bytes[..], old(held[..]), held[..], q - 1, q, [c])
    {
      if q == 0 { return Out, 0, 0; }
      var off := offset - 1;
      newPag := pag;
      if off < 0 {
        off := (q - 1) % PAGE_SIZE;
        newPag := (q - 1) / PAGE_SIZE;
        if !held[newPag] {
          if free == 0 { return Full, 0, 0; }
          free := free - 1;
          held[newPag] := true;
        }
      }
      assert newPag * PAGE_SIZE + off == q - 1 && held[..][(q - 1) / PAGE_SIZE];
      bytes[newPag * PAGE_SIZE + off] := c;
      o, newOffset := Done, off;
      assert bytes[..] == old(bytes[..])[..q - 1] + [c] + old(bytes[..])[q..];
    }

    /** The inner loop: the string and its zero, from the end. */
    method CopyOne(start: nat, length: nat, p: nat, offset0: nat, pag0: nat, ghost s: seq<Byte>)
      returns (o: Copy, q: nat, offset: nat, pag: nat)
      requires Valid() && Cursor(p, offset0, pag0) && StringAt(mem[..], start, s) && length == |s| + 1
      modifies `free, bytes, held
      ensures o == Out ==> p < length
      ensures o == Full ==> free == 0
      ensures o == Done ==>
                Cursor(q, offset, pag) && Copying(old(bytes[..]), bytes[..], old(held[..]), held[..], q, p, s + [0])
    {
      hide Covers, Grown;
      ghost var was, h, z := bytes[..], held[..], s + [0];
      ghost var m := mem[..];
      assert forall k | 0 <= k < length :: m[start + k] == z[k] by {
        assert forall k | 0 <= k < |s| :: m[start..start + |s|][k] == s[k];
      }
      var len := length;
      q, offset, pag := p, offset0, pag0;
      CopyingBegins(was, h, p);
      while len > 0
        invariant 0 <= len <= length && q + (length - len) == p && Cursor(q, offset, pag) && mem[..] == m
        invariant Copying(was, bytes[..], h, held[..], q, p, z[len..])
      {
        len := len - 1;
        ghost var mid, i := bytes[..], held[..];
        o, offset, pag := CopyByte(mem[start + len], q, offset, pag);
        if o != Done { return; }
        CopiedMore(was, mid, bytes[..], h, i, held[..], q - 1, q, p, [z[len]], z[len + 1..]);
        assert z[len..] == [z[len]] + z[len + 1..];
        q := q - 1;
      }
      assert z[0..] == z;
      o := Done;
    }

    /** copy_strings, from the last string to the first.  When memory lasts, the strings get into the pages
        exactly when they fit. */
    method CopyStrings(argv: seq<nat>, p: nat, ghost x: seq<seq<Byte>>) returns (r: Copied)
      requires Valid() && p <= ARG_BYTES && StringsAt(mem[..], argv, x)
      modifies `free, bytes, held
      ensures r.Overrun? ==> |Flat(x)| > p
      ensures r.NoMemory? ==> free == 0
      ensures r.At? && p > 0 ==> Copying(old(bytes[..]), bytes[..], old(held[..]), held[..], r.p, p, Flat(x))
      ensures p == 0 ==> r == At(0) && bytes[..] == old(bytes[..]) && held[..] == old(held[..]) && free == old(free)
    {
      if p == 0 { return At(0); }
      hide Copying, StringAt;
      var q: nat, offset: nat, pag: nat := p, 0, 0;
      var argc: nat := |argv|;
      ghost var was, h, m := bytes[..], held[..], mem[..];
      CopyingBegins(was, h, p);
      while argc > 0
        invariant 0 <= argc <= |argv| && Cursor(q, offset, pag) && mem[..] == m && q + |Flat(x[argc..])| == p
        invariant Copying(was, bytes[..], h, held[..], q, p, Flat(x[argc..]))
      {
        argc := argc - 1;
        FlatLast(x, argc);
        FlatFrom(x, argc);
        var len := Length(argv[argc], x[argc]);
        ghost var mid, i, at := bytes[..], held[..], q;
        var o;
        o, q, offset, pag := CopyOne(argv[argc], len, q, offset, pag, x[argc]);
        if o == Out { return Overrun; }
        if o == Full { return NoMemory; }
        CopiedMore(was, mid, bytes[..], h, i, held[..], q, at, p, x[argc] + [0], Flat(x[argc + 1..]));
        CopyingLength(mid, bytes[..], i, held[..], q, at, x[argc] + [0]);
      }
      assert x[0..] == x;
      r := At(q);
    }
  }

  lemma CopyingBegins(was: seq<Byte>, h: seq<bool>, p: nat)
    requires p <= |was|
    ensures Copying(was, was, h, h, p, p, [])
  {}

  lemma CopyingLength(was: seq<Byte>, now: seq<Byte>, h: seq<bool>, g: seq<bool>, q: nat, p: nat, done: seq<Byte>)
    requires Copying(was, now, h, g, q, p, done)
    ensures q + |done| == p
  {}
}
