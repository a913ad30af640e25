/** What a sequence of writes and truncates means: every file is a plain sequence of bytes. */
module FileLaws {
  import opened Zones
  import opened FileSystem

  function Zeros(n: nat): (z: seq<Byte>)
    ensures |z| == n && forall i | 0 <= i < n :: z[i] == 0
  {
    seq(n, _ => 0)
  }

  /** The bytes of file n. */
  function Contents(s: Fs, n: nat): (c: seq<Byte>)
    requires Shape(s) && n < |s.inodes|
    ensures |c| == s.inodes[n].size && forall i: nat | i < |c| :: c[i] == FileByte(s, n, i)
  {
    seq(s.inodes[n].size, i requires 0 <= i => FileByte(s, n, i))
  }

  /** `data` laid over the bytes c from `start` on; a gap is filled with zeros. */
  function Overlay(c: seq<Byte>, start: nat, data: seq<Byte>): seq<Byte> {
    if data == [] then c
    else
      var wide := if |c| < start then c + Zeros(start - |c|) else c;
      wide[..start] + data + (if start + |data| < |c| then c[start + |data|..] else [])
  }

  /** A write puts its bytes into the file and leaves the other files alone. */
  lemma WriteOverlays(s: Fs, t: Fs, n: nat, start: nat, data: seq<Byte>)
    requires Wrote(s, t, n, start, data) && TailsZero(s)
    ensures TailsZero(t)
    ensures forall m: nat | m < |s.inodes| :: Contents(t, m) == if m == n then Overlay(Contents(s, m), start, data)
            else Contents(s, m)
  {
    forall m: nat, pos: nat | m < |t.inodes| && pos >= t.inodes[m].size ensures FileByte(t, m, pos) == 0 {
      assert FileByte(s, m, pos) == 0;
    }
    forall m: nat | m < |s.inodes|
      ensures Contents(t, m) == if m == n then Overlay(Contents(s, m), start, data) else Contents(s, m)
    {
      var c, d := Contents(s, m), Contents(t, m);
      if m == n {
        var o := Overlay(c, start, data);
        assert |o| == |d|;
        forall i: nat | i < |d| ensures o[i] == d[i] {
          assert i >= |c| ==> FileByte(s, m, i) == 0;
        }
      }
    }
  }

  /** truncate empties the file and leaves the other files alone. */
  lemma TruncateEmpties(s: Fs, t: Fs, n: nat, bad: set<nat>, busy: set<nat>)
    requires Ok(s) && Truncated(s, t, n, bad, busy) && TailsZero(s)
    ensures Ok(t) && TailsZero(t)
    ensures forall m: nat | m < |s.inodes| :: Contents(t, m) == if m == n then [] else Contents(s, m)
  {
    TruncateKeeps(s, t, n, bad, busy);
    forall m: nat, pos: nat | m < |t.inodes| && pos >= t.inodes[m].size ensures FileByte(t, m, pos) == 0 {
      assert m != n ==> FileByte(s, m, pos) == 0;
    }
  }

  // ---- Whole runs ----

  datatype Op = Write(n: nat, start: nat, data: seq<Byte>) | Append(n: nat, data: seq<Byte>)
      | Empty(n: nat, bad: set<nat>, busy: set<nat>)

  /** One finished call: a write of the prefix it returned, or a truncate. */
  ghost predicate Call(s: Fs, t: Fs, op: Op) {
    match op
    case Write(n, start, data) => Wrote(s, t, n, start, data)
    case Append(n, data) => n < |s.inodes| && Wrote(s, t, n, s.inodes[n].size, data)
    case Empty(n, bad, busy) => Ok(s) && Truncated(s, t, n, bad, busy)
  }

  ghost predicate Calls(run: seq<Fs>, ops: seq<Op>) {
    |run| == |ops| + 1 && forall i | 0 <= i < |ops| :: Call(run[i], run[i + 1], ops[i])
  }

  /** The same call on files that are plain byte sequences. */
  function OnBytes(files: seq<seq<Byte>>, op: Op): seq<seq<Byte>> {
    if op.n >= |files| then files
    else
      var c := files[op.n];
      files[op.n := match op
                    case Write(_, start, data) => Overlay(c, start, data)
                    case Append(_, data) => c + data
                    case Empty(_, _, _) => []]
  }

  function AllOnBytes(files: seq<seq<Byte>>, ops: seq<Op>): seq<seq<Byte>> {
    if ops == [] then files else OnBytes(AllOnBytes(files, ops[..|ops| - 1]), ops[|ops| - 1])
  }

  function Files(s: Fs): (f: seq<seq<Byte>>)
    requires Shape(s)
    ensures |f| == |s.inodes| && forall n: nat | n < |f| :: f[n] == Contents(s, n)
  {
    seq(|s.inodes|, n requires 0 <= n < |s.inodes| => Contents(s, n))
  }

  lemma OverlayAtEnd(c: seq<Byte>, data: seq<Byte>)
    ensures Overlay(c, |c|, data) == c + data
  {}

  lemma OneFileChanged(s: Fs, t: Fs, n: nat, c: seq<Byte>)
    requires Shape(s) && Shape(t) && n < |s.inodes| == |t.inodes|
    requires forall m: nat | m < |s.inodes| :: Contents(t, m) == if m == n then c else Contents(s, m)
    ensures Files(t) == Files(s)[n := c]
  {
    hide Contents, Shape;
    assert |Files(t)| == |Files(s)|;
  }

  lemma CallMeans(s: Fs, t: Fs, op: Op)
    requires Ok(s) && TailsZero(s) && Call(s, t, op)
    ensures Ok(t) && TailsZero(t) && Files(t) == OnBytes(Files(s), op)
  {
    hide FileByte, At, Bmap, TailsZero, Conserved, PointersUsed, PlacesDistinct;
    match op
    case Write(n, start, data) =>
      WriteOverlays(s, t, n, start, data);
      OneFileChanged(s, t, n, Overlay(Contents(s, n), start, data));
    case Append(n, data) =>
      WriteOverlays(s, t, n, s.inodes[n].size, data);
      OverlayAtEnd(Contents(s, n), data);
      OneFileChanged(s, t, n, Contents(s, n) + data);
    case Empty(n, bad, busy) =>
      TruncateEmpties(s, t, n, bad, busy);
      OneFileChanged(s, t, n, []);
  }

  /** After any run of writes, appends and truncates the files on the device hold exactly the bytes the
      same calls leave in plain byte sequences. */
  lemma {:induction false} RunMeans(run: seq<Fs>, ops: seq<Op>)
    requires Calls(run, ops) && Ok(run[0]) && TailsZero(run[0])
    ensures var last := run[|ops|]; Ok(last) && TailsZero(last) && Files(last) == AllOnBytes(Files(run[0]), ops)
    decreases |ops|
  {
    if ops != [] {
      var k := |ops| - 1;
      assert Calls(run[..k + 1], ops[..k]);
      RunMeans(run[..k + 1], ops[..k]);
      CallMeans(run[k], run[k + 1], ops[k]);
    }
  }

  /** Reading below the end of a file whose index blocks and blocks can be read gives all that was asked for. */
  lemma ReadSlice(s: Fs, n: nat, pos: nat, count: nat, out: seq<Byte>, end: nat, bad: set<nat>)
    requires Shape(s) && n < |s.inodes| && pos + count <= s.inodes[n].size
             && ReadResult(s, n, pos, count, out, end, bad)
    requires forall p: nat | pos <= p < pos + count :: Readable(s, n, p, bad)
    ensures out == Contents(s, n)[pos..pos + count] && end == pos + count
  {
    forall k | 0 <= k < |out| ensures out[k] == Contents(s, n)[pos + k] {
      assert Readable(s, n, pos + k, bad);
    }
  }

  /** What file_write has written, file_read gives back, all of it and nothing else, whatever could be read
      before: the write leaves no byte behind that cannot be read. */
  lemma ReadBack(s: Fs, t: Fs, badWas: set<nat>, bad: set<nat>, busy: set<nat>, n: nat, start: nat, data: seq<Byte>,
                 out: seq<Byte>, end: nat)
    requires Writes(s, t, badWas, bad, busy, n, start, data) && ReadResult(t, n, start, |data|, out, end, bad)
    ensures out == data && end == start + |data|
  {
    forall k | 0 <= k < |out| ensures out[k] == data[k] {
      assert Readable(t, n, start + k, bad);
      assert FileByte(t, n, start + k) == data[k];
    }
  }

  /** The two directions of block numbering fit: freeing what new_block handed out restores the bitmap. */
  lemma NewThenFree(s: Fs, t: Fs, busy: set<nat>, r: nat, halted: bool)
    requires Shape(s) && BitmapOk(s) && NewBlockIs(s, t, busy, r, halted) && r != 0
    ensures InDataZone(t, r) && t.bits[r - t.first + 1] && t.bits[r - t.first + 1 := false] == s.bits
  {
    NewBlockTakes(s, t, busy, r, halted);
  }

  /** And freeing a block makes new_block hand out that block or a lower one. */
  lemma FreeThenNew(s: Fs, t: Fs, busy: set<nat>, b: nat, r: nat, halted: bool)
    requires Shape(s) && BitmapOk(s) && Used(s, b) && NewBlockIs(ClearBit(s, b), t, busy, r, halted) && !halted
    ensures 0 < r <= b && (r == b <==> forall c: nat | s.first <= c < b :: Used(s, c))
  {
    var u := ClearBit(s, b);
    assert !Used(u, b) && InDataZone(u, b);
    forall c: nat | InDataZone(s, c) && c != b ensures Used(u, c) <==> Used(s, c) {}
    NewBlockTakes(u, t, busy, r, halted);
    if r < b { assert !Used(s, r); }
  }
}
