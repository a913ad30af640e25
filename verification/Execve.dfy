/** fs/exec.c: do_execve, as far as strings go; a script is run by the interpreter its first line names. */
module Execve {
  import opened ExecArgs
  import opened NewStack
  import opened Options

  /** What has been pushed ends up in memory in this order; `line` is the interpreter's name, its argument
      and the script's file name, when a script is run. */
  datatype Script<T> = Binary | Script(name: T, arg: Option<T>, file: T)

  function Spliced<T>(s: Script<T>): seq<T> {
    match s
    case Binary => []
    case Script(name, arg, file) => [name] + (if arg.Some? then [arg.value] else []) + [file]
  }

  /** For a script the first argument makes room, if there is one. */
  function Kept<T>(s: Script, args: seq<T>): seq<T> { if s.Binary? || args == [] then args else args[1..] }

  function Pushed(s: Script<seq<Byte>>, args: seq<seq<Byte>>, env: seq<seq<Byte>>): seq<seq<Byte>> {
    Spliced(s) + Kept(s, args) + env
  }

  /** argc as do_execve counts it: `--argc`, and one more for each string spliced in. */
  function Argc<T>(s: Script<T>, argc: nat): nat { if s.Binary? then argc else argc - 1 + |Spliced(s)| }

  /** The count is right, and with it argv and envp, exactly when the script was given an argv[0]; without
      one the last argument is taken for the first environment string and the last of those is lost. */
  lemma SplicedRight(s: Script<seq<Byte>>, args: seq<seq<Byte>>, env: seq<seq<Byte>>)
    ensures var x, argc := Pushed(s, args, env), Argc(s, |args|);
            && argc + |env| <= |x|
            && (x[..argc] == Spliced(s) + Kept(s, args) && x[argc..argc + |env|] == env <==> s.Binary? || args != [])
  {
    var x, argc := Pushed(s, args, env), Argc(s, |args|);
    if s.Binary? || args != [] {
      assert argc == |Spliced(s) + Kept(s, args)|;
    } else {
      assert |x[..argc]| < |Spliced(s) + Kept(s, args)|;
    }
  }

  /** Between two calls of copy_strings: x has been copied, or p is 0 because a page was missing or because
      the strings filled the pages to the last byte. */
  ghost predicate Copied(was: seq<Byte>, now: seq<Byte>, h: seq<bool>, g: seq<bool>, free: nat, p: nat,
                         x: seq<seq<Byte>>) {
    if p > 0 then Copying(was, now, h, g, p, ARG_BYTES - 4, Flat(x)) else free == 0 || |Flat(x)| >= ARG_BYTES - 4
  }

  datatype Result = Ready(sp: nat) | NoMem | Corrupted

  /** One call of copy_strings in do_execve: y goes in front of x. */
  method Push(a: ArgPages, at: seq<nat>, p: nat, ghost y: seq<seq<Byte>>, ghost x: seq<seq<Byte>>,
              ghost was: seq<Byte>, ghost h: seq<bool>)
    returns (ok: bool, q: nat)
    requires a.Valid() && p <= ARG_BYTES - 4 && StringsAt(a.mem[..], at, y) && |was| == ARG_BYTES
    requires Copied(was, a.bytes[..], h, a.held[..], a.free, p, x)
    modifies a`free, a.bytes, a.held
    ensures a.Valid() && q <= ARG_BYTES - 4
    ensures ok ==> Copied(was, a.bytes[..], h, a.held[..], a.free, q, y + x)
    ensures !ok ==> |Flat(y + x)| > ARG_BYTES - 4
    ensures a.mem[..] == old(a.mem[..])
  {
    hide Copying, StringAt, Flat;
    FlatAppend(y, x);
    ghost var mid, g := a.bytes[..], a.held[..];
    var r := a.CopyStrings(at, p, y);
    if p > 0 { CopyingLength(was, mid, h, g, p, ARG_BYTES - 4, Flat(x)); }
    match r
    case Overrun => ok, q := false, 0;
    case NoMemory => ok, q := true, 0;
    case At(n) =>
      ok, q := true, n;
      if p > 0 {
        CopyingLength(mid, a.bytes[..], g, a.held[..], n, p, Flat(y));
        CopiedMore(was, mid, a.bytes[..], h, g, a.held[..], n, p, ARG_BYTES - 4, Flat(y), Flat(x));
      }
  }

  /** The pages that hold strings become the top of the user's data segment (the loop of change_ldt). */
  method MapPages(a: ArgPages, u: array<Byte>)
    requires a.Valid() && u.Length == SEGMENT && u != a.bytes
    modifies u
    ensures Mapped(a.bytes[..], a.held[..], u[..], 0)
  {
    var base, i := SEGMENT, MAX_ARG_PAGES;
    while i > 0
      invariant 0 <= i <= MAX_ARG_PAGES && base == SEGMENT - ARG_BYTES + i * PAGE_SIZE
      invariant Mapped(a.bytes[..], a.held[..], u[..], i * PAGE_SIZE)
    {
      i := i - 1;
      base := base - PAGE_SIZE;
      ghost var was := u[..];
      if a.held[i] {
        forall x | 0 <= x < PAGE_SIZE { u[base + x] := a.bytes[i * PAGE_SIZE + x]; }
      }
      MappedMore(a.bytes[..], a.held[..], was, u[..], i);
    }
  }

  /** From byte x on, what is held is in user memory. */
  ghost predicate Mapped(bytes: seq<Byte>, held: seq<bool>, u: seq<Byte>, x: nat) {
    |bytes| == ARG_BYTES && |u| == SEGMENT && forall y: nat | x <= y < ARG_BYTES && PageHeld(held, y) ::
        Top(u, y) == bytes[y]
  }

  /** Byte y of the last ARG_BYTES bytes. */
  function Top(u: seq<Byte>, y: nat): Byte
    requires |u| == SEGMENT && y < ARG_BYTES
  {
    u[SEGMENT - ARG_BYTES + y]
  }

  lemma MappedMore(bytes: seq<Byte>, held: seq<bool>, u: seq<Byte>, v: seq<Byte>, i: nat)
    requires i < MAX_ARG_PAGES == |held| && Mapped(bytes, held, u, (i + 1) * PAGE_SIZE) && |v| == |u|
    requires forall y: nat | (i + 1) * PAGE_SIZE <= y < ARG_BYTES :: Top(v, y) == Top(u, y)
    requires held[i] ==> forall y: nat | i * PAGE_SIZE <= y < (i + 1) * PAGE_SIZE :: Top(v, y) == bytes[y]
    ensures Mapped(bytes, held, v, i * PAGE_SIZE)
  {
    forall y: nat | i * PAGE_SIZE <= y < ARG_BYTES && PageHeld(held, y) ensures Top(v, y) == bytes[y] {
      assert y < (i + 1) * PAGE_SIZE ==> y / PAGE_SIZE == i;
      assert y >= (i + 1) * PAGE_SIZE ==> Top(u, y) == bytes[y];
    }
  }

  /** The strings in the pages are the strings at the top of user memory. */
  lemma MappedRow(was: seq<Byte>, bytes: seq<Byte>, h: seq<bool>, held: seq<bool>, u: seq<Byte>, p: nat,
                  x: seq<seq<Byte>>)
    requires Copying(was, bytes, h, held, p, ARG_BYTES - 4, Flat(x)) && Mapped(bytes, held, u, 0) && Texts(x)
             && |was| == ARG_BYTES
    ensures Row(u, SEGMENT - ARG_BYTES + p, x)
  {
    var f, at := Flat(x), SEGMENT - ARG_BYTES + p;
    forall k | 0 <= k < |f| ensures u[at..at + |f|][k] == f[k] {
      assert PageHeld(held, p + k) && bytes[p + k] == f[k] && Top(u, p + k) == f[k];
    }
  }

  /** Each string takes at least its zero. */
  lemma {:induction false} FlatLong(x: seq<seq<Byte>>)
    ensures |Flat(x)| >= |x|
  {
    if x != [] { FlatLong(x[1..]); }
  }

  /** The new stack, or the reason why there is none. */
  ghost predicate Executed(r: Result, x: seq<seq<Byte>>, argc: nat, envc: nat, free: nat, u: seq<Byte>) {
    match r
    case Ready(sp) => |Flat(x)| < ARG_BYTES - 4 && argc + envc <= |x| && Stack(u, sp, x[..argc], x[argc..argc + envc])
    case NoMem => free == 0 || |Flat(x)| >= ARG_BYTES - 4
    case Corrupted => |Flat(x)| > ARG_BYTES - 4
  }

  /** Everything do_execve does with the strings: they are pushed, environment first, and for a script
      argv[0] gives way to the interpreter's line; then the pages become the new stack.  The strings fit
      exactly when they take less than the ARG_BYTES - 4 bytes there are. */
  method DoExecve(a: ArgPages, m: UserMemory, argv: seq<nat>, envp: seq<nat>, script: Script<nat>,
                  ghost args: seq<seq<Byte>>, ghost env: seq<seq<Byte>>, ghost line: Script<seq<Byte>>)
    returns (r: Result)
    requires a.Valid() && m.u.Length == SEGMENT && m.u != a.bytes && m.u != a.mem
    requires StringsAt(a.mem[..], argv, args) && StringsAt(a.mem[..], envp, env) && LineAt(a.mem[..], script, line)
    modifies a`free, a.bytes, a.held, m.u
    ensures Executed(r, Pushed(line, args, env), Argc(line, |args|), |env|, a.free, m.u[..])
  {
    assert a.bytes.Length == ARG_BYTES;
    hide *;
    ghost var was, h, x := a.bytes[..], a.held[..], Pushed(line, args, env);
    LineFacts(a.mem[..], argv, envp, script, args, env, line);
    var ok, p := PushAll(a, argv, envp, script, args, env, line);
    PushedOutcome(ok, p, was, a.bytes[..], h, a.held[..], a.free, x, Argc(line, |args|), |env|, m.u[..]);
    if !ok { return Corrupted; }
    if p == 0 { return NoMem; }
    var argc := if script.Binary? then |argv| else |argv| - 1 + (if script.arg.Some? then 3 else 2);
    var sp := BuildStack(a, m, p, argc, |envp|, x, was, h);
    r := Ready(sp);
  }

  lemma LineFacts(m: seq<Byte>, argv: seq<nat>, envp: seq<nat>, s: Script<nat>,
                  args: seq<seq<Byte>>, env: seq<seq<Byte>>, line: Script<seq<Byte>>)
    requires StringsAt(m, argv, args) && StringsAt(m, envp, env) && LineAt(m, s, line)
    ensures Texts(Pushed(line, args, env)) && |envp| == |env| && Argc(line, |args|) + |env| <= |Pushed(line, args, env)|
    ensures Argc(line, |args|) == if s.Binary? then |argv| else |argv| - 1 + (if s.arg.Some? then 3 else 2)
  {
    TextsOfAll(m, argv, envp, s, args, env, line);
    SplicedRight(line, args, env);
  }

  lemma PushedOutcome(ok: bool, p: nat, was: seq<Byte>, now: seq<Byte>, h: seq<bool>, g: seq<bool>, free: nat,
                      x: seq<seq<Byte>>, argc: nat, envc: nat, u: seq<Byte>)
    requires if ok then Copied(was, now, h, g, free, p, x) else |Flat(x)| > ARG_BYTES - 4
    ensures !ok ==> Executed(Corrupted, x, argc, envc, free, u)
    ensures ok && p == 0 ==> Executed(NoMem, x, argc, envc, free, u)
  {}

  method BuildStack(a: ArgPages, m: UserMemory, p: nat, argc: nat, envc: nat, ghost x: seq<seq<Byte>>,
                    ghost was: seq<Byte>, ghost h: seq<bool>)
    returns (sp: nat)
    requires a.Valid() && m.u.Length == SEGMENT && m.u != a.bytes && 0 < p <= ARG_BYTES - 4 && |was| == ARG_BYTES
    requires Copied(was, a.bytes[..], h, a.held[..], a.free, p, x) && Texts(x) && argc + envc <= |x|
    modifies m.u
    ensures Executed(Ready(sp), x, argc, envc, a.free, m.u[..])
  {
    MapPages(a, m.u);
    MappedRow(was, a.bytes[..], h, a.held[..], m.u[..], p, x);
    FlatLong(x);
    CopyingLength(was, a.bytes[..], h, a.held[..], p, ARG_BYTES - 4, Flat(x));
    hide Copying, Flat, Row, Stack;
    sp := m.CreateTables(SEGMENT - ARG_BYTES + p, argc, envc, x);
  }

  ghost predicate LineAt(m: seq<Byte>, s: Script<nat>, line: Script<seq<Byte>>) {
    match s
    case Binary => line.Binary?
    case Script(name, arg, file) =>
      && line.Script? && StringAt(m, name, line.name) && StringAt(m, file, line.file)
      && (arg.Some? <==> line.arg.Some?) && (arg.Some? ==> StringAt(m, arg.value, line.arg.value))
  }

  lemma TextsOfAll(m: seq<Byte>, argv: seq<nat>, envp: seq<nat>, s: Script<nat>,
                   args: seq<seq<Byte>>, env: seq<seq<Byte>>, line: Script<seq<Byte>>)
    requires StringsAt(m, argv, args) && StringsAt(m, envp, env) && LineAt(m, s, line)
    ensures Texts(Pushed(line, args, env))
  {
    assert Texts(Spliced(line)) && Texts(Kept(line, args)) && Texts(env);
  }

  /** The calls of copy_strings, one set for a program and one for a script. */
  method PushAll(a: ArgPages, argv: seq<nat>, envp: seq<nat>, script: Script<nat>,
                 ghost args: seq<seq<Byte>>, ghost env: seq<seq<Byte>>, ghost line: Script<seq<Byte>>)
    returns (ok: bool, p: nat)
    requires a.Valid() && StringsAt(a.mem[..], argv, args) && StringsAt(a.mem[..], envp, env)
             && LineAt(a.mem[..], script, line)
    modifies a`free, a.bytes, a.held
    ensures a.Valid() && a.mem[..] == old(a.mem[..])
    ensures var x := Pushed(line, args, env);
            if ok then
              p <= ARG_BYTES - 4 && Copied(old(a.bytes[..]), a.bytes[..], old(a.held[..]), a.held[..], a.free, p, x)
            else |Flat(x)| > ARG_BYTES - 4
  {
    ghost var was, h, x, kept := a.bytes[..], a.held[..], env, Kept(line, args);
    assert |was| == ARG_BYTES;
    PushFacts(a.mem[..], argv, script, args, env, line, was, h, a.free);
    var first := if script.Binary? || argv == [] then argv else argv[1..];
    hide *;
    ok, p := Push(a, envp, ARG_BYTES - 4, env, [], was, h);
    Longer(Spliced(line) + kept, x);
    if !ok { return; }
    ok, p := Push(a, first, p, kept, x, was, h);
    x := kept + x;
    Longer(Spliced(line), x);
    if !ok || script.Binary? { return; }
    ok, p := PushLine(a, script, p, x, was, h, line);
  }

  lemma PushFacts(m: seq<Byte>, argv: seq<nat>, s: Script<nat>, args: seq<seq<Byte>>, env: seq<seq<Byte>>,
                  line: Script<seq<Byte>>,
                  was: seq<Byte>, h: seq<bool>, free: nat)
    requires StringsAt(m, argv, args) && LineAt(m, s, line) && |was| == ARG_BYTES
    ensures env + [] == env && Copied(was, was, h, h, free, ARG_BYTES - 4, [])
    ensures StringsAt(m, if s.Binary? || argv == [] then argv else argv[1..], Kept(line, args))
    ensures Spliced(line) + (Kept(line, args) + env) == Pushed(line, args, env)
    ensures (Spliced(line) + Kept(line, args)) + env == Pushed(line, args, env)
    ensures s.Binary? ==> Spliced(line) + (Kept(line, args) + env) == Kept(line, args) + env
  {
    CopyingBegins(was, h, ARG_BYTES - 4);
    EmptyFlat();
  }

  /** The three strings of the interpreter's line, last first. */
  method PushLine(a: ArgPages, script: Script<nat>, p0: nat, ghost x0: seq<seq<Byte>>, ghost was: seq<Byte>,
                  ghost h: seq<bool>,
                  ghost line: Script<seq<Byte>>)
    returns (ok: bool, p: nat)
    requires a.Valid() && p0 <= ARG_BYTES - 4 && |was| == ARG_BYTES && LineAt(a.mem[..], script, line) && script.Script?
    requires Copied(was, a.bytes[..], h, a.held[..], a.free, p0, x0)
    modifies a`free, a.bytes, a.held
    ensures a.Valid() && a.mem[..] == old(a.mem[..])
    ensures var x := Spliced(line) + x0;
            if ok then p <= ARG_BYTES - 4 && Copied(was, a.bytes[..], h, a.held[..], a.free, p, x)
            else |Flat(x)| > ARG_BYTES - 4
  {
    hide Copied, StringAt, Flat;
    var x := [line.file] + x0;
    ok, p := Push(a, [script.file], p0, [line.file], x0, was, h);
    assert Spliced(line) + x0 == Spliced(line)[..|Spliced(line)| - 1] + x;
    Longer(Spliced(line)[..|Spliced(line)| - 1], x);
    if !ok { return; }
    if script.arg.Some? {
      ok, p := Push(a, [script.arg.value], p, [line.arg.value], x, was, h);
      x := [line.arg.value] + x;
      assert Spliced(line) + x0 == [line.name] + x;
      Longer([line.name], x);
      if !ok { return; }
    }
    ok, p := Push(a, [script.name], p, [line.name], x, was, h);
    assert Spliced(line) + x0 == [line.name] + x;
  }

  lemma Longer(z: seq<seq<Byte>>, x: seq<seq<Byte>>)
    ensures |Flat(z + x)| >= |Flat(x)|
  {
    FlatAppend(z, x);
  }

  lemma EmptyFlat()
    ensures Flat([]) == []
  {}

  /** The new program finds its arguments and its environment, unchanged and in order. */
  lemma ExecutedRight(sp: nat, args: seq<seq<Byte>>, env: seq<seq<Byte>>, line: Script<seq<Byte>>, free: nat,
                      u: seq<Byte>)
    requires Executed(Ready(sp), Pushed(line, args, env), Argc(line, |args|), |env|, free, u)
    requires line.Binary? || args != []
    ensures Stack(u, sp, Spliced(line) + Kept(line, args), env)
  {
    SplicedRight(line, args, env);
  }

  // ---- What the new program finds, byte by byte ----

  /** The word at a is v, low byte first. */
  ghost predicate Word(u: seq<Byte>, a: nat, v: nat) {
    && a + 4 <= |u| && v < 0x1_0000_0000
    && u[a] == v % 256 && u[a + 1] == v / 256 % 256 && u[a + 2] == v / 65536 % 256 && u[a + 3] == v / 16777216
  }

  /** The word at a is the address of string s, which ends in a zero byte. */
  ghost predicate Names(u: seq<Byte>, a: nat, s: seq<Byte>) {
    exists p: nat :: 0 < p && p + |s| < |u| && Word(u, a, p) && u[p + |s|] == 0
                     && forall k | 0 <= k < |s| :: u[p + k] == s[k]
  }

  /** The table at a has an address for each string, and a zero. */
  ghost predicate Table(u: seq<Byte>, a: nat, x: seq<seq<Byte>>) {
    Word(u, a + 4 * |x|, 0) && forall i | 0 <= i < |x| :: Names(u, a + 4 * i, x[i])
  }

  /** The arguments: for a script the interpreter's name, its argument if there is one, the script's file name,
      and the arguments after the first. */
  ghost predicate Arguments(line: Script<seq<Byte>>, args: seq<seq<Byte>>, x: seq<seq<Byte>>) {
    match line
    case Binary => x == args
    case Script(name, None, file) => args != [] && x == [name, file] + args[1..]
    case Script(name, Some(arg), file) => args != [] && x == [name, arg, file] + args[1..]
  }

  lemma ArgumentsAre(line: Script<seq<Byte>>, args: seq<seq<Byte>>)
    requires line.Binary? || args != []
    ensures Arguments(line, args, Spliced(line) + Kept(line, args))
  {
    match line
    case Binary => assert Spliced(line) + Kept(line, args) == args;
    case _ =>
  }

  /** From the stack pointer upwards: the number of arguments, the addresses of the two tables, the tables. */
  ghost predicate Begins(u: seq<Byte>, sp: nat, x: seq<seq<Byte>>, env: seq<seq<Byte>>) {
    && Word(u, sp, |x|) && Word(u, sp + 4, sp + 12) && Word(u, sp + 8, sp + 16 + 4 * |x|)
    && Table(u, sp + 12, x) && Table(u, sp + 16 + 4 * |x|, env)
  }

  lemma ArgumentsArrive(sp: nat, args: seq<seq<Byte>>, env: seq<seq<Byte>>, line: Script<seq<Byte>>, free: nat,
                        u: seq<Byte>)
    requires Executed(Ready(sp), Pushed(line, args, env), Argc(line, |args|), |env|, free, u)
    requires (line.Binary? || args != []) && |u| == 0x400_0000
    ensures exists x :: Arguments(line, args, x) && Begins(u, sp, x, env)
  {
    ExecutedRight(sp, args, env, line, free, u);
    ArgumentsAre(line, args);
    hide *;
    StackFound(u, sp, Spliced(line) + Kept(line, args), env);
  }

  lemma StackFound(u: seq<Byte>, sp: nat, x: seq<seq<Byte>>, env: seq<seq<Byte>>)
    requires Stack(u, sp, x, env) && |u| == 0x400_0000
    ensures Begins(u, sp, x, env)
  {
    var envp := sp + 12 + 4 * (|x| + 1);
    var end := envp + 4 * (|env| + 1);
    WordIs(u, sp);
    WordIs(u, sp + 4);
    WordIs(u, sp + 8);
    PointsFound(u, sp + 12, x, end);
    PointsFound(u, envp, env, end);
  }

  lemma WordIs(u: seq<Byte>, a: nat)
    requires a + 4 <= |u|
    ensures Word(u, a, Long(u, a))
  {
    BytesOf(u[a], u[a + 1], u[a + 2], u[a + 3]);
  }

  lemma BytesOf(a: Byte, b: Byte, c: Byte, d: Byte)
    ensures var v := a as nat + 256 * b as nat + 65536 * c as nat + 16777216 * d as nat;
            v % 256 == a && v / 256 % 256 == b && v / 65536 % 256 == c && v / 16777216 == d
  {
    var x, y, z := d as nat, c as nat + 256 * d, b as nat + 256 * (c as nat + 256 * d);
    Halves(a, z);
    Halves(b, y);
    Halves(c, x);
    var v := a + 256 * z;
    assert v / 65536 == v / 256 / 256 && v / 16777216 == v / 65536 / 256;
  }

  lemma Halves(a: Byte, n: nat)
    ensures (a + 256 * n) / 256 == n && (a + 256 * n) % 256 == a
  {}

  lemma PointsFound(u: seq<Byte>, at: nat, x: seq<seq<Byte>>, end: nat)
    requires at + 4 * (|x| + 1) <= |u| && Points(u, at, x, end) && end > 0
    ensures Table(u, at, x)
  {
    WordIs(u, at + 4 * |x|);
    assert Entry(u, at, |x|) == 0;
    forall i | 0 <= i < |x| ensures Names(u, at + 4 * i, x[i]) {
      var p := Entry(u, at, i);
      assert p >= end && StringAt(u, p, x[i]);
      WordIs(u, at + 4 * i);
      forall k | 0 <= k < |x[i]| ensures u[p + k] == x[i][k] { assert u[p + k] == u[p..p + |x[i]|][k]; }
    }
  }

  /** The bytes the strings take, each with its zero. */
  function Total(x: seq<seq<Byte>>): nat { if x == [] then 0 else Total(x[..|x| - 1]) + |x[|x| - 1]| + 1 }

  lemma {:induction false} FlatTotal(x: seq<seq<Byte>>)
    ensures |Flat(x)| == Total(x)
  {
    if x != [] {
      var n := |x| - 1;
      FlatTotal(x[..n]);
      FlatLast(x, n);
      assert x[..n + 1] == x;
    }
  }

  /** With memory left, execve succeeds exactly when the strings and their zeros take less than 131068 bytes. */
  lemma WhenTheyFit(r: Result, args: seq<seq<Byte>>, env: seq<seq<Byte>>, line: Script<seq<Byte>>, free: nat,
                    u: seq<Byte>)
    requires Executed(r, Pushed(line, args, env), Argc(line, |args|), |env|, free, u) && free > 0
    ensures r.Ready? <==> Total(Pushed(line, args, env)) < 131068
    ensures r.Corrupted? ==> Total(Pushed(line, args, env)) > 131068
  {
    FlatTotal(Pushed(line, args, env));
  }

  /** A script run without any argument: the environment gets the file name, and loses its last string. */
  lemma NoArgumentsShift()
    ensures var s, f, e := [1], [2], [3];
            var x, argc := Pushed(Script(s, None, f), [], [e]), Argc(Script(s, None, f), 0);
            x[..argc] == [s] && x[argc..argc + 1] == [f]
  {
    assert Pushed(Script([1], None, [2]), [], [[3]]) == [[1], [2], [3]];
  }

  // ---- The first line of a script ----

  const BLANKS: set<Byte> := {32, 9}
  const SLASH: Byte := 47
  const NEWLINE: Byte := 10

  predicate Blank(c: Byte) { c in BLANKS }

  /** The line: blanks, a word, and then nothing or a blank and the rest. */
  ghost predicate Split(line: seq<Byte>, lead: nat, end: nat) {
    && lead < end <= |line| && (forall k | 0 <= k < lead :: Blank(line[k]))
       && (forall k | lead <= k < end :: !Blank(line[k]))
    && (end < |line| ==> Blank(line[end]))
  }

  /** name is what follows the last slash of the word. */
  ghost predicate BaseName(line: seq<Byte>, lead: nat, end: nat, name: nat) {
    && lead <= name <= end <= |line| && (name == lead || line[name - 1] == SLASH)
       && forall k | name <= k < end :: line[k] != SLASH
  }

  datatype Parsed = NotExecutable | Interpreter(interp: nat, name: nat, arg: Option<nat>)

  /** The parsing of `buf`, which holds what follows the #! of a script and ends in a zero.  It takes a
      newline, and something else than blanks before it; the words are cut out in place. */
  method ParseLine(buf: array<Byte>, ghost line: seq<Byte>) returns (r: Parsed)
    requires |line| < buf.Length && buf[..|line|] == line && NEWLINE !in line && Text(line)
    requires buf[|line|] == NEWLINE || buf[|line|] == 0
    modifies buf
    ensures r == NotExecutable <==> old(buf[|line|]) == 0 || forall k | 0 <= k < |line| :: Blank(line[k])
    ensures r.Interpreter? ==> exists end: nat :: Words(buf[..], line, r, r.interp, end)
  {
    ghost var n := |line|;
    assert forall k | 0 <= k < n :: buf[k] == buf[..n][k] == line[k];
    var cp := 0;
    while buf[cp] != 0 && buf[cp] != NEWLINE
      invariant 0 <= cp <= n
      decreases n - cp
    {
      cp := cp + 1;
    }
    if buf[cp] == 0 { return NotExecutable; }
    buf[cp] := 0;
    var lead := 0;
    while Blank(buf[lead])
      invariant 0 <= lead <= n && forall k | 0 <= k < lead :: Blank(line[k])
      decreases n - lead
    {
      lead := lead + 1;
    }
    if buf[lead] == 0 { return NotExecutable; }
    r := CutWords(buf, lead, line);
  }

  /** The word at `lead`, and what follows it. */
  method CutWords(buf: array<Byte>, lead: nat, ghost line: seq<Byte>) returns (r: Parsed)
    requires lead < |line| < buf.Length && buf[..|line|] == line && Text(line) && buf[|line|] == 0
    requires (forall k | 0 <= k < lead :: Blank(line[k])) && !Blank(line[lead])
    modifies buf
    ensures exists end: nat :: Words(buf[..], line, r, lead, end)
  {
    ghost var n := |line|;
    assert forall k | 0 <= k < n :: buf[k] == buf[..n][k] == line[k];
    var end: nat, name: nat := lead, lead;
    while buf[end] != 0 && !Blank(buf[end])
      invariant lead <= end <= n && BaseName(line, lead, end, name)
      invariant forall k | lead <= k < end :: !Blank(line[k])
      decreases n - end
    {
      if buf[end] == SLASH { name := end + 1; }
      end := end + 1;
    }
    var arg := None;
    if buf[end] != 0 {
      buf[end] := 0;
      arg := Some(end + 1);
    }
    assert Split(line, lead, end);
    CutOut(buf[..], line, lead, end);
    CutOut(buf[..], line, name, end);
    if end < n { CutOut(buf[..], line, end + 1, n); }
    r := Interpreter(lead, name, arg);
    assert Words(buf[..], line, r, lead, end);
  }

  /** The interpreter, its base name and the rest of the line, each a string of its own in the buffer. */
  ghost predicate Words(m: seq<Byte>, line: seq<Byte>, r: Parsed, lead: nat, end: nat) {
    && Split(line, lead, end) && r.Interpreter? && r.interp == lead && BaseName(line, lead, end, r.name)
    && StringAt(m, lead, line[lead..end]) && StringAt(m, r.name, line[r.name..end])
    && r.arg == (if end < |line| then Some(end + 1) else None)
    && (end < |line| ==> StringAt(m, end + 1, line[end + 1..]))
  }

  lemma CutOut(m: seq<Byte>, line: seq<Byte>, from: nat, to: nat)
    requires from <= to <= |line| < |m| && Text(line) && m[to] == 0 && forall k | from <= k < to :: m[k] == line[k]
    ensures StringAt(m, from, line[from..to])
  {
    assert m[from..to] == line[from..to];
  }
}
