/** fs/exec.c: the tables on the new stack (create_tables), the pages under it (change_ldt) and the order in
    which do_execve pushes strings, also for a script. */
module NewStack {
  import opened ExecArgs

  // ---- 32-bit words in user memory ----

  function Low(v: nat): Byte { v % 256 }

  function Encode(v: nat): (b: seq<Byte>)
    requires v < 0x1_0000_0000
    ensures |b| == 4
  {
    [Low(v), Low(v / 256), Low(v / 0x1_0000), Low(v / 0x100_0000)]
  }

  function Long(u: seq<Byte>, a: nat): nat
    requires a + 4 <= |u|
  {
    u[a] as nat + 256 * u[a + 1] as nat + 0x1_0000 * u[a + 2] as nat + 0x100_0000 * u[a + 3] as nat
  }

  lemma Digits(v: nat)
    requires v < 0x1_0000_0000
    ensures v == v % 256 + 256 * (v / 256 % 256) + 0x1_0000 * (v / 0x1_0000 % 256) + 0x100_0000 * (v / 0x100_0000 % 256)
  {
    assert v / 0x1_0000 == v / 256 / 256 && v / 0x100_0000 == v / 0x1_0000 / 256;
  }

  lemma LongEncoded(u: seq<Byte>, a: nat, v: nat)
    requires v < 0x1_0000_0000 && a + 4 <= |u| && forall k | 0 <= k < 4 :: u[a + k] == Encode(v)[k]
    ensures Long(u, a) == v
  {
    var b := Encode(v);
    assert u[a + 0] == b[0] && u[a + 1] == b[1] && u[a + 2] == b[2] && u[a + 3] == b[3];
    Digits(v);
  }

  /** Only the bytes from lo up to hi may differ. */
  ghost predicate Outside(u: seq<Byte>, v: seq<Byte>, lo: nat, hi: nat) {
    |u| == |v| && forall x: nat | x < |u| && !(lo <= x < hi) :: u[x] == v[x]
  }

  lemma LongKept(u: seq<Byte>, v: seq<Byte>, lo: nat, hi: nat, a: nat)
    requires Outside(u, v, lo, hi) && a + 4 <= |u| && (a + 4 <= lo || hi <= a)
    ensures Long(v, a) == Long(u, a)
  {}

  // ---- Strings in a row ----

  ghost predicate Texts(x: seq<seq<Byte>>) { forall i | 0 <= i < |x| :: Text(x[i]) }

  /** Memory u holds the strings x one after the other from p on. */
  ghost predicate Row(u: seq<Byte>, p: nat, x: seq<seq<Byte>>) {
    p + |Flat(x)| <= |u| && u[p..p + |Flat(x)|] == Flat(x) && Texts(x)
  }

  function Start(p: nat, x: seq<seq<Byte>>, i: nat): nat
    requires i <= |x|
  {
    p + |Flat(x[..i])|
  }

  /** String i of the row is where the lengths of those before it say. */
  lemma RowString(u: seq<Byte>, p: nat, x: seq<seq<Byte>>, i: nat)
    requires Row(u, p, x) && i < |x|
    ensures StringAt(u, Start(p, x, i), x[i]) && Start(p, x, i + 1) == Start(p, x, i) + |x[i]| + 1 <= p + |Flat(x)|
  {
    hide Flat;
    FlatLast(x, i);
    FlatAppend(x[..i], x[i..]);
    assert x[..i] + x[i..] == x;
    Inner(u, p, Flat(x[..i]), x[i], Flat(x[i + 1..]));
  }

  lemma Inner(u: seq<Byte>, p: nat, a: seq<Byte>, s: seq<Byte>, b: seq<Byte>)
    requires var f := a + (s + [0] + b); p + |f| <= |u| && u[p..p + |f|] == f
    ensures var at := p + |a|; at + |s| < |u| && u[at..at + |s|] == s && u[at + |s|] == 0
  {
    var f, at := a + (s + [0] + b), p + |a|;
    forall k | 0 <= k <= |s| ensures u[at + k] == (s + [0])[k] {
      assert u[at + k] == u[p..p + |f|][|a| + k] == f[|a| + k];
    }
    assert u[at + |s|] == (s + [0])[|s|];
    forall k | 0 <= k < |s| ensures u[at..at + |s|][k] == s[k] { assert u[at + k] == (s + [0])[k]; }
  }

  lemma RowRest(u: seq<Byte>, p: nat, x: seq<seq<Byte>>, i: nat)
    requires Row(u, p, x) && i <= |x|
    ensures Row(u, Start(p, x, i), x[i..]) && p <= Start(p, x, i) <= |u|
  {
    hide Flat;
    FlatAppend(x[..i], x[i..]);
    assert x[..i] + x[i..] == x;
    var f, a := Flat(x), Flat(x[..i]);
    assert u[p + |a|..p + |f|] == u[p..p + |f|][|a|..];
  }

  lemma RowKept(u: seq<Byte>, v: seq<Byte>, lo: nat, hi: nat, p: nat, x: seq<seq<Byte>>)
    requires Row(u, p, x) && Outside(u, v, lo, hi) && hi <= p
    ensures Row(v, p, x)
  {
    assert v[p..p + |Flat(x)|] == u[p..p + |Flat(x)|];
  }

  /** A filled table with its NULL points to the strings of the row. */
  lemma TablePoints(u: seq<Byte>, at: nat, p: nat, x: seq<seq<Byte>>, n: nat, end: nat)
    requires Row(u, p, x) && Filled(u, at, p, x, n) && at + 4 * n + 4 <= |u| && Entry(u, at, n) == 0 && end <= p
    ensures Points(u, at, x[..n], end)
  {
    forall i: nat | i < n ensures Entry(u, at, i) >= end && StringAt(u, Entry(u, at, i), x[i]) {
      RowString(u, p, x, i);
    }
  }

  /** The first `n` entries of the table at `at` point to the first n strings. */
  ghost predicate Filled(u: seq<Byte>, at: nat, p: nat, x: seq<seq<Byte>>, n: nat) {
    n <= |x| && at + 4 * n <= |u| && forall i: nat | i < n :: Entry(u, at, i) == Start(p, x, i)
  }

  function Entry(u: seq<Byte>, at: nat, i: nat): nat
    requires at + 4 * i + 4 <= |u|
  {
    Long(u, at + 4 * i)
  }

  /** What a new program finds: argc, argv and envp; two tables that end in NULL; the strings above them. */
  ghost predicate Stack(u: seq<Byte>, sp: nat, args: seq<seq<Byte>>, env: seq<seq<Byte>>) {
    var argv, envp := sp + 12, sp + 12 + 4 * (|args| + 1);
    var end := envp + 4 * (|env| + 1);
    && end <= |u| && sp % 4 == 0
    && Long(u, sp) == |args| && Long(u, sp + 4) == argv && Long(u, sp + 8) == envp
    && Points(u, argv, args, end) && Points(u, envp, env, end)
  }

  /** A table of pointers to the strings x, all of them at or above `end`, and a NULL. */
  ghost predicate Points(u: seq<Byte>, at: nat, x: seq<seq<Byte>>, end: nat)
    requires at + 4 * (|x| + 1) <= |u|
  {
    Entry(u, at, |x|) == 0 && forall i: nat | i < |x| :: Entry(u, at, i) >= end && StringAt(u, Entry(u, at, i), x[i])
  }

  class UserMemory {
    const u: array<Byte>

    method PutLong(v: nat, a: nat)
      requires v < 0x1_0000_0000 && a + 4 <= u.Length
      modifies u
      ensures Long(u[..], a) == v && Outside(old(u[..]), u[..], a, a + 4)
    {
      u[a], u[a + 1], u[a + 2], u[a + 3] := Low(v), Low(v / 256), Low(v / 0x1_0000), Low(v / 0x100_0000);
      LongEncoded(u[..], a, v);
    }

    /** while (get_fs_byte(p++)) */
    method SkipString(p: nat, ghost s: seq<Byte>) returns (q: nat)
      requires StringAt(u[..], p, s)
      ensures q == p + |s| + 1
    {
      ghost var m := u[..];
      assert forall k | 0 <= k < |s| :: m[p + k] == m[p..p + |s|][k] == s[k] != 0;
      q := p;
      while u[q] != 0
        invariant p <= q <= p + |s|
        decreases p + |s| - q
      {
        q := q + 1;
      }
      q := q + 1;
    }

    /** One of the two loops of create_tables, with the NULL after it. */
    method FillTable(p: nat, at: nat, n: nat, ghost x: seq<seq<Byte>>) returns (q: nat)
      requires u.Length == SEGMENT && Row(u[..], p, x) && n <= |x| && at + 4 * n + 4 <= p
      modifies u
      ensures q == Start(p, x, n) && Outside(old(u[..]), u[..], at, at + 4 * n + 4)
      ensures Filled(u[..], at, p, x, n) && Entry(u[..], at, n) == 0
    {
      ghost var was := u[..];
      q := p;
      var i := 0;
      assert x[..0] == [];
      while i < n
        invariant 0 <= i <= n && q == Start(p, x, i) && Outside(was, u[..], at, at + 4 * i)
                  && Filled(u[..], at, p, x, i)
      {
        ghost var mid := u[..];
        RowString(was, p, x, i);
        PutLong(q, at + 4 * i);
        FilledMore(mid, u[..], at, p, x, i);
        StringKept(was, u[..], at, at + 4 * i + 4, q, x[i]);
        q := SkipString(q, x[i]);
        i := i + 1;
      }
      ghost var mid := u[..];
      PutLong(0, at + 4 * n);
      FilledKept(mid, u[..], at, p, x, n, at + 4 * n, at + 4 * n + 4);
    }

    /** The three words at the new stack pointer, pushed downwards. */
    method PutHead(sp: nat, argc: nat, argv: nat, envp: nat)
      requires u.Length == SEGMENT && sp + 12 <= SEGMENT && argc < 0x1_0000_0000 && argv < 0x1_0000_0000
               && envp < 0x1_0000_0000
      modifies u
      ensures Long(u[..], sp) == argc && Long(u[..], sp + 4) == argv && Long(u[..], sp + 8) == envp
      ensures Outside(old(u[..]), u[..], sp, sp + 12)
    {
      PutLong(envp, sp + 8);
      ghost var u1 := u[..];
      PutLong(argv, sp + 4);
      ghost var u2 := u[..];
      PutLong(argc, sp);
      LongKept(u1, u2, sp + 4, sp + 8, sp + 8);
      LongKept(u2, u[..], sp, sp + 4, sp + 8);
      LongKept(u2, u[..], sp, sp + 4, sp + 4);
    }

    method CreateTables(p: nat, argc: nat, envc: nat, ghost x: seq<seq<Byte>>) returns (sp: nat)
      requires u.Length == SEGMENT && Row(u[..], p, x) && argc + envc <= |x| && 4 * (argc + envc + 5) + 3 <= p
      modifies u
      ensures sp == p - p % 4 - 4 * (argc + envc + 5)
      ensures Stack(u[..], sp, x[..argc], x[argc..argc + envc])
    {
      assert p + |Flat(x)| <= SEGMENT;
      hide Row, Filled, Long, Flat, StringAt, Outside, Entry, Points, Stack, Start;
      ghost var was := u[..];
      var envp := p - p % 4 - 4 * (envc + 1);
      var argv := envp - 4 * (argc + 1);
      sp := argv - 12;
      assert sp % 4 == 0 by { hide *; }
      PutHead(sp, argc, argv, envp);
      RowKept(was, u[..], sp, argv, p, x);
      FillBoth(sp, p, argv, envp, argc, envc, x);
    }

    /** The two loops of create_tables. */
    method FillBoth(sp: nat, p: nat, argv: nat, envp: nat, argc: nat, envc: nat, ghost x: seq<seq<Byte>>)
      requires u.Length == SEGMENT && Row(u[..], p, x) && argc + envc <= |x| && sp % 4 == 0
      requires argv == sp + 12 && envp == argv + 4 * (argc + 1) && envp + 4 * (envc + 1) <= p
      requires p <= SEGMENT && Long(u[..], sp) == argc && Long(u[..], sp + 4) == argv && Long(u[..], sp + 8) == envp
      modifies u
      ensures Stack(u[..], sp, x[..argc], x[argc..argc + envc])
    {
      hide Row, Filled, Long, Flat, StringAt, Outside, Entry, Points, Stack, Start;
      ghost var u3 := u[..];
      var q := FillTable(p, argv, argc, x);
      ghost var u4 := u[..];
      RowKept(u3, u4, argv, envp, p, x);
      RowRest(u4, p, x, argc);
      var _ := FillTable(q, envp, envc, x[argc..]);
      TablesMade(u3, u4, u[..], sp, p, q, x, argc, envc);
    }
  }

  lemma TablesMade(u3: seq<Byte>, u4: seq<Byte>, u5: seq<Byte>, sp: nat, p: nat, q: nat, x: seq<seq<Byte>>, argc: nat,
                   envc: nat)
    requires argc + envc <= |x| && sp % 4 == 0 && |u3| == |u4| == |u5|
    requires var argv, envp, end := sp + 12, sp + 12 + 4 * (argc + 1), sp + 12 + 4 * (argc + 1) + 4 * (envc + 1);
             && end <= p <= q <= |u3| && q == Start(p, x, argc)
             && Long(u3, sp) == argc && Long(u3, sp + 4) == argv && Long(u3, sp + 8) == envp
             && Outside(u3, u4, argv, envp) && Row(u4, p, x) && Filled(u4, argv, p, x, argc)
                && Entry(u4, argv, argc) == 0
             && Outside(u4, u5, envp, end) && Filled(u5, envp, q, x[argc..], envc) && Entry(u5, envp, envc) == 0
    ensures Stack(u5, sp, x[..argc], x[argc..argc + envc])
  {
    var argv, envp, end := sp + 12, sp + 12 + 4 * (argc + 1), sp + 12 + 4 * (argc + 1) + 4 * (envc + 1);
    hide Row, Filled, Long, Flat, StringAt, Outside, Entry, Points;
    assert Entry(u4, argv, argc) == Long(u4, argv + 4 * argc) by { EntryIs(u4, argv, argc); }
    EntryIs(u5, argv, argc);
    HeadKept(u3, u4, sp, argv, envp);
    HeadKept(u4, u5, sp, envp, end);
    RowKept(u4, u5, envp, end, p, x);
    RowRest(u5, p, x, argc);
    FilledKept(u4, u5, argv, p, x, argc, envp, end);
    LongKept(u4, u5, envp, end, argv + 4 * argc);
    TablePoints(u5, argv, p, x, argc, end);
    TablePoints(u5, envp, q, x[argc..], envc, end);
    assert x[argc..][..envc] == x[argc..argc + envc];
  }

  lemma EntryIs(u: seq<Byte>, at: nat, i: nat)
    requires at + 4 * i + 4 <= |u|
    ensures Entry(u, at, i) == Long(u, at + 4 * i)
  {}

  lemma HeadKept(u: seq<Byte>, v: seq<Byte>, sp: nat, lo: nat, hi: nat)
    requires Outside(u, v, lo, hi) && sp + 12 <= lo && sp + 12 <= |u|
    ensures Long(v, sp) == Long(u, sp) && Long(v, sp + 4) == Long(u, sp + 4) && Long(v, sp + 8) == Long(u, sp + 8)
  {
    LongKept(u, v, lo, hi, sp);
    LongKept(u, v, lo, hi, sp + 4);
    LongKept(u, v, lo, hi, sp + 8);
  }

  lemma FilledKept(u: seq<Byte>, v: seq<Byte>, at: nat, p: nat, x: seq<seq<Byte>>, n: nat, lo: nat, hi: nat)
    requires Filled(u, at, p, x, n) && Outside(u, v, lo, hi) && (at + 4 * n <= lo || hi <= at)
    ensures Filled(v, at, p, x, n)
  {
    forall i: nat | i < n ensures Entry(v, at, i) == Start(p, x, i) {
      LongKept(u, v, lo, hi, at + 4 * i);
      assert Entry(u, at, i) == Start(p, x, i);
    }
  }

  lemma FilledMore(u: seq<Byte>, v: seq<Byte>, at: nat, p: nat, x: seq<seq<Byte>>, n: nat)
    requires Filled(u, at, p, x, n) && n < |x| && at + 4 * n + 4 <= |u| && Outside(u, v, at + 4 * n, at + 4 * n + 4)
    requires Long(v, at + 4 * n) == Start(p, x, n)
    ensures Filled(v, at, p, x, n + 1)
  {
    FilledKept(u, v, at, p, x, n, at + 4 * n, at + 4 * n + 4);
    forall i: nat | i < n + 1 ensures Entry(v, at, i) == Start(p, x, i) {}
  }

  lemma StringKept(u: seq<Byte>, v: seq<Byte>, lo: nat, hi: nat, a: nat, s: seq<Byte>)
    requires Outside(u, v, lo, hi) && hi <= a && StringAt(u, a, s)
    ensures StringAt(v, a, s)
  {
    assert v[a..a + |s|] == u[a..a + |s|];
  }
}
