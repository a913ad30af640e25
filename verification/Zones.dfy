/** Files as the zone pointers of fs/inode.c lay them out on a device: seven direct blocks, a single
    and a double indirect one.  Index blocks and data blocks are the same untyped bytes on the same
    device; the block bitmap of fs/bitmap.c says which are taken. */
module Zones {
  const BLOCK_SIZE := 1024
  const ENTRIES := 512
  const NDIRECT := 7
  const MAXBLOCKS := NDIRECT + ENTRIES + ENTRIES * ENTRIES

  type Byte = b: nat | b < 256

  type Block = s: seq<Byte> | |s| == BLOCK_SIZE witness seq(BLOCK_SIZE, _ => 0)

  function ZeroBlock(): (z: Block)
    ensures forall i | 0 <= i < BLOCK_SIZE :: z[i] == 0
  {
    seq(BLOCK_SIZE, _ => 0)
  }

  /** ((unsigned short *) data)[i] */
  function Index(x: Block, i: nat): (v: nat)
    requires i < ENTRIES
    ensures v < 0x1_0000
  {
    x[2 * i] as nat + 256 * x[2 * i + 1] as nat
  }

  function SetIndex(x: Block, i: nat, v: nat): Block
    requires i < ENTRIES && v < 0x1_0000
  {
    x[2 * i := v % 256][2 * i + 1 := v / 256]
  }

  lemma IndexSet(x: Block, i: nat, v: nat, k: nat)
    requires i < ENTRIES && v < 0x1_0000 && k < ENTRIES
    ensures Index(SetIndex(x, i, v), k) == if k == i then v else Index(x, k)
  {}

  /** Regular files and directories; device special files, which have a device number for their first zone;
      anything else. */
  datatype Kind = File | Special | Other

  datatype Inode = Inode(zone: seq<nat>, size: nat, kind: Kind)

  /** One device: its blocks, its bitmap (bit n is block n + first - 1) and its inodes. */
  datatype Fs = Fs(blocks: seq<Block>, bits: seq<bool>, first: nat, nzones: nat, inodes: seq<Inode>)

  /** Every slot of an inode's tree that can hold a block number. */
  datatype Place = Zone(i: nat) | Ind | Ent(i: nat) | Dind | Mid(i: nat) | Leaf(i: nat, j: nat)

  predicate IsPlace(p: Place) {
    match p
    case Zone(i) => i < NDIRECT
    case Ind => true
    case Ent(i) => i < ENTRIES
    case Dind => true
    case Mid(i) => i < ENTRIES
    case Leaf(i, j) => i < ENTRIES && j < ENTRIES
  }

  predicate IsData(p: Place) { p.Zone? || p.Ent? || p.Leaf? }

  /** The place of logical block l. */
  function PlaceOf(l: nat): (p: Place)
    requires l < MAXBLOCKS
    ensures IsPlace(p) && IsData(p)
  {
    if l < NDIRECT then Zone(l)
    else if l < NDIRECT + ENTRIES then Ent(l - NDIRECT)
    else Leaf((l - NDIRECT - ENTRIES) / ENTRIES, (l - NDIRECT - ENTRIES) % ENTRIES)
  }

  lemma PlacesDiffer(l: nat, m: nat)
    requires l < MAXBLOCKS && m < MAXBLOCKS && l != m
    ensures PlaceOf(l) != PlaceOf(m)
  {}

  predicate InInode(p: Place) { p.Zone? || p.Ind? || p.Dind? }

  function ZoneNo(p: Place): nat
    requires IsPlace(p) && InInode(p)
  {
    match p
    case Zone(i) => i
    case Ind => 7
    case Dind => 8
  }

  /** The place of the index block that p is stored in. */
  function Parent(p: Place): (q: Place)
    requires IsPlace(p) && !InInode(p)
    ensures IsPlace(q) && !IsData(q) && Depth(q) < Depth(p)
  {
    match p
    case Ent(_) => Ind
    case Mid(_) => Dind
    case Leaf(i, _) => Mid(i)
  }

  function Depth(p: Place): nat {
    match p
    case Zone(_) => 0
    case Ind => 0
    case Dind => 0
    case Ent(_) => 1
    case Mid(_) => 1
    case Leaf(_, _) => 2
  }

  function Number(p: Place): (n: nat)
    requires IsPlace(p) && !InInode(p)
    ensures n < ENTRIES
  {
    match p
    case Ent(i) => i
    case Mid(i) => i
    case Leaf(_, j) => j
  }

  predicate Shape(s: Fs) {
    && 0 < s.first <= s.nzones <= |s.blocks| && s.nzones < 0x1_0000 && s.nzones - s.first < |s.bits|
    && forall n | 0 <= n < |s.inodes| :: |s.inodes[n].zone| == 9
  }

  predicate InDataZone(s: Fs, b: nat) { s.first <= b < s.nzones }

  /** The zones of inode n are block numbers. */
  predicate HasTree(s: Fs, n: nat) { n < |s.inodes| && !s.inodes[n].kind.Special? }

  /** The block number stored at a place, 0 for none. */
  function At(s: Fs, n: nat, p: Place): nat
    requires Shape(s) && IsPlace(p)
    decreases Depth(p)
  {
    if !HasTree(s, n) then 0
    else if InInode(p) then s.inodes[n].zone[ZoneNo(p)]
    else
      var h := At(s, n, Parent(p));
      if InDataZone(s, h) then Index(s.blocks[h], Number(p)) else 0
  }

  predicate Used(s: Fs, b: nat)
    requires Shape(s)
  {
    InDataZone(s, b) && s.bits[b - s.first + 1]
  }

  ghost predicate Owned(s: Fs, b: nat)
    requires Shape(s)
  {
    exists n: nat, p :: IsPlace(p) && At(s, n, p) == b
  }

  // ---- The invariant ----

  /** Block numbers lead into the data zone, to blocks that are marked taken. */
  ghost predicate PointersUsed(s: Fs)
    requires Shape(s)
  {
    forall n: nat, p | IsPlace(p) && At(s, n, p) != 0 :: Used(s, At(s, n, p))
  }

  /** No block is at two places. */
  ghost predicate PlacesDistinct(s: Fs)
    requires Shape(s)
  {
    forall n: nat, p, m: nat, q | IsPlace(p) && IsPlace(q) && At(s, n, p) != 0 && At(s, n, p) == At(s, m, q) ::
        n == m && p == q
  }

  /** The bitmap is in order: its first bit and the bits past the last zone are set. */
  predicate BitmapOk(s: Fs)
    requires Shape(s)
  {
    s.bits[0] && forall k | s.nzones - s.first < k < |s.bits| :: s.bits[k]
  }

  ghost predicate Ok(s: Fs) { Shape(s) && BitmapOk(s) && PointersUsed(s) && PlacesDistinct(s) }

  /** Nothing is lost: the taken blocks are exactly the blocks of files. */
  ghost predicate Conserved(s: Fs)
    requires Shape(s)
  {
    forall b: nat | Used(s, b) :: Owned(s, b)
  }

  // ---- What a file holds ----

  function Bmap(s: Fs, n: nat, l: nat): nat
    requires Shape(s)
  {
    if l < MAXBLOCKS then At(s, n, PlaceOf(l)) else 0
  }

  /** Where the disk keeps a file, in zones and bytes: seven direct blocks, then the 512 two-byte numbers in the
      block zone[7] names, low byte first, then 512 times as many by way of the block zone[8] names. */
  lemma Layout(s: Fs, n: nat, l: nat)
    requires Shape(s) && HasTree(s, n) && l < MAXBLOCKS
    ensures l < 7 ==> Bmap(s, n, l) == s.inodes[n].zone[l]
    ensures 7 <= l < 519 ==>
              var h, j := s.inodes[n].zone[7], l - 7;
              Bmap(s, n, l) == if s.first <= h < s.nzones then
                                 s.blocks[h][2 * j] as nat + 256 * s.blocks[h][2 * j + 1] as nat
                               else 0
    ensures l >= 519 ==>
              var h, i, j := s.inodes[n].zone[8], (l - 519) / 512, (l - 519) % 512;
              var m := if s.first <= h < s.nzones then
                         s.blocks[h][2 * i] as nat + 256 * s.blocks[h][2 * i + 1] as nat
                       else 0;
              Bmap(s, n, l) == if s.first <= m < s.nzones then
                                 s.blocks[m][2 * j] as nat + 256 * s.blocks[m][2 * j + 1] as nat
                               else 0
  {
    if l >= 519 {
      var i, j := (l - 519) / 512, (l - 519) % 512;
      assert PlaceOf(l) == Leaf(i, j) && Parent(Leaf(i, j)) == Mid(i) && Parent(Mid(i)) == Dind;
      assert At(s, n, Dind) == s.inodes[n].zone[8];
      assert At(s, n, Mid(i)) == if InDataZone(s, At(s, n, Dind)) then Index(s.blocks[At(s, n, Dind)], i) else 0;
    }
  }

  /** Byte `pos` of file n; holes read as zero. */
  function FileByte(s: Fs, n: nat, pos: nat): Byte
    requires Shape(s)
  {
    var b := Bmap(s, n, pos / BLOCK_SIZE);
    if InDataZone(s, b) then s.blocks[b][pos % BLOCK_SIZE] else 0
  }

  /** A file's bytes are those of its blocks, 1024 to a block, in order. */
  lemma ByteLayout(s: Fs, n: nat, l: nat, k: nat)
    requires Shape(s) && k < 1024
    ensures var b := Bmap(s, n, l);
            FileByte(s, n, 1024 * l + k) == if s.first <= b < s.nzones then s.blocks[b][k] else 0
  {
    assert (1024 * l + k) / BLOCK_SIZE == l && (1024 * l + k) % BLOCK_SIZE == k;
  }

  /** There is nothing behind the end of a file. */
  ghost predicate TailsZero(s: Fs)
    requires Shape(s)
  {
    forall n: nat, pos: nat | n < |s.inodes| && pos >= s.inodes[n].size :: FileByte(s, n, pos) == 0
  }

  // ---- Giving a place a new block ----

  function SetBlock(s: Fs, b: nat, x: Block): Fs {
    if b < |s.blocks| then Fs(s.blocks[b := x], s.bits, s.first, s.nzones, s.inodes) else s
  }

  function SetInode(s: Fs, n: nat, x: Inode): Fs {
    if n < |s.inodes| then Fs(s.blocks, s.bits, s.first, s.nzones, s.inodes[n := x]) else s
  }

  /** new_block: a free block is taken and cleared. */
  function Take(s: Fs, b: nat): Fs
    requires Shape(s) && InDataZone(s, b)
  {
    Fs(s.blocks[b := ZeroBlock()], s.bits[b - s.first + 1 := true], s.first, s.nzones, s.inodes)
  }

  /** Storing b at place p of inode n. */
  function Store(s: Fs, n: nat, p: Place, b: nat): Fs
    requires Shape(s) && IsPlace(p) && n < |s.inodes| && b < 0x1_0000
  {
    if InInode(p) then SetInode(s, n, s.inodes[n].(zone := s.inodes[n].zone[ZoneNo(p) := b]))
    else
      var h := At(s, n, Parent(p));
      if InDataZone(s, h) then SetBlock(s, h, SetIndex(s.blocks[h], Number(p), b)) else s
  }

  /** p of inode n is empty and can be filled: the index block it is stored in exists. */
  ghost predicate CanGrow(s: Fs, n: nat, p: Place, b: nat) {
    && Ok(s) && IsPlace(p) && HasTree(s, n) && At(s, n, p) == 0
    && InDataZone(s, b) && !Used(s, b)
    && (!InInode(p) ==> At(s, n, Parent(p)) != 0)
  }

  function Grow(s: Fs, n: nat, p: Place, b: nat): Fs
    requires Shape(s) && IsPlace(p) && n < |s.inodes| && InDataZone(s, b)
  {
    Store(Take(s, b), n, p, b)
  }

  lemma TakenAt(s: Fs, b: nat, m: nat, q: Place)
    requires Ok(s) && InDataZone(s, b) && !Used(s, b) && IsPlace(q)
    ensures Shape(Take(s, b)) && At(Take(s, b), m, q) == At(s, m, q)
    decreases Depth(q)
  {
    if !InInode(q) {
      TakenAt(s, b, m, Parent(q));
      if HasTree(s, m) && At(s, m, Parent(q)) != 0 { assert Used(s, At(s, m, Parent(q))); }
    }
  }

  lemma GrownShape(s: Fs, n: nat, p: Place, b: nat)
    requires CanGrow(s, n, p, b)
    ensures var t := Grow(s, n, p, b);
            Shape(t) && t.first == s.first && t.nzones == s.nzones && |t.inodes| == |s.inodes|
    ensures Grow(s, n, p, b).bits == s.bits[b - s.first + 1 := true]
  {}

  lemma GrownBlock(s: Fs, n: nat, p: Place, b: nat, c: nat)
    requires CanGrow(s, n, p, b) && InDataZone(s, c)
    ensures var t := Grow(s, n, p, b);
            && |t.blocks| == |s.blocks|
            && t.blocks[c] == (if c == b then ZeroBlock()
                               else if !InInode(p) && c == At(s, n, Parent(p)) then SetIndex(s.blocks[c], Number(p), b)
                               else s.blocks[c])
  {
    if !InInode(p) {
      TakenAt(s, b, n, Parent(p));
      assert Used(s, At(s, n, Parent(p)));
    }
  }

  /** Place q of inode m, one level down, once its index block is known. */
  lemma GrownBelow(s: Fs, n: nat, p: Place, b: nat, m: nat, q: Place)
    requires CanGrow(s, n, p, b) && IsPlace(q) && Shape(Grow(s, n, p, b)) && !InInode(q) && HasTree(s, m)
    requires At(Grow(s, n, p, b), m, Parent(q)) == if m == n && Parent(q) == p then b else At(s, m, Parent(q))
    requires Grow(s, n, p, b).first == s.first && Grow(s, n, p, b).nzones == s.nzones
             && |Grow(s, n, p, b).inodes| == |s.inodes|
    ensures At(Grow(s, n, p, b), m, q) == if m == n && q == p then b else At(s, m, q)
  {
    var h := At(s, m, Parent(q));
    if m == n && Parent(q) == p {
      GrownBlock(s, n, p, b, b);
      assert Index(ZeroBlock(), Number(q)) == 0;
    } else if h != 0 {
      assert Used(s, h);
      GrownBlock(s, n, p, b, h);
      if !InInode(p) && h == At(s, n, Parent(p)) {
        assert m == n && Parent(q) == Parent(p);
        IndexSet(s.blocks[h], Number(p), b, Number(q));
        assert Number(p) == Number(q) ==> p == q;
      }
    }
  }

  /** The new block appears at p and nowhere else changes. */
  lemma GrownAt(s: Fs, n: nat, p: Place, b: nat, m: nat, q: Place)
    requires CanGrow(s, n, p, b) && IsPlace(q) && Shape(Grow(s, n, p, b))
    ensures At(Grow(s, n, p, b), m, q) == if m == n && q == p then b else At(s, m, q)
    decreases Depth(q)
  {
    GrownShape(s, n, p, b);
    if HasTree(s, m) && !InInode(q) {
      GrownAt(s, n, p, b, m, Parent(q));
      GrownBelow(s, n, p, b, m, q);
    }
  }

  lemma GrowKeeps(s: Fs, n: nat, p: Place, b: nat)
    requires CanGrow(s, n, p, b)
    ensures var t := Grow(s, n, p, b); Ok(t) && (Conserved(s) ==> Conserved(t))
    ensures var t := Grow(s, n, p, b);
            forall m: nat, q | IsPlace(q) :: At(t, m, q) == if m == n && q == p then b else At(s, m, q)
  {
    GrownShape(s, n, p, b);
    var t := Grow(s, n, p, b);
    forall m: nat, q | IsPlace(q) ensures At(t, m, q) == if m == n && q == p then b else At(s, m, q) {
      GrownAt(s, n, p, b, m, q);
    }
    hide Grow, At;
    assert PointersUsed(t);
    assert PlacesDistinct(t);
    if Conserved(s) {
      forall c: nat | Used(t, c) ensures Owned(t, c) {
        if c == b {
          assert At(t, n, p) == b;
        } else {
          assert Used(s, c) && Owned(s, c);
          var m: nat, q :| IsPlace(q) && At(s, m, q) == c;
          assert At(t, m, q) == c;
        }
      }
    }
  }

  /** Growing a file's tree changes no byte of any file: the new block is blank where the hole was. */
  lemma GrowKeepsBytes(s: Fs, n: nat, p: Place, b: nat, m: nat, pos: nat)
    requires CanGrow(s, n, p, b) && Shape(Grow(s, n, p, b))
    ensures FileByte(Grow(s, n, p, b), m, pos) == FileByte(s, m, pos)
  {
    var t := Grow(s, n, p, b);
    GrownShape(s, n, p, b);
    var l := pos / BLOCK_SIZE;
    if l < MAXBLOCKS {
      var q := PlaceOf(l);
      var h := At(s, m, q);
      GrownAt(s, n, p, b, m, q);
      if m == n && q == p {
        GrownBlock(s, n, p, b, b);
      } else if h != 0 {
        assert Used(s, h);
        GrownBlock(s, n, p, b, h);
        if !InInode(p) { assert At(s, n, Parent(p)) != h; }
      }
    }
  }

  // ---- Writing into a data block ----

  ghost predicate IsDataBlock(s: Fs, n: nat, q: Place, b: nat) {
    Ok(s) && IsPlace(q) && IsData(q) && At(s, n, q) == b && b != 0
  }

  lemma {:induction false} WrittenAt(s: Fs, n: nat, q: Place, b: nat, x: Block, m: nat, r: Place)
    requires IsDataBlock(s, n, q, b) && IsPlace(r)
    ensures Shape(SetBlock(s, b, x)) && At(SetBlock(s, b, x), m, r) == At(s, m, r)
    decreases Depth(r)
  {
    if HasTree(s, m) && !InInode(r) {
      WrittenAt(s, n, q, b, x, m, Parent(r));
      assert At(s, m, Parent(r)) != b;
    }
  }

  /** A write into a data block of file n changes the bytes of that block of that file, and no
      block number anywhere. */
  lemma WriteKeeps(s: Fs, n: nat, l: nat, b: nat, x: Block)
    requires l < MAXBLOCKS && IsDataBlock(s, n, PlaceOf(l), b)
    ensures var t := SetBlock(s, b, x);
            && Ok(t) && (Conserved(s) ==> Conserved(t))
            && (forall m: nat, r | IsPlace(r) :: At(t, m, r) == At(s, m, r))
            && forall m: nat, pos: nat :: FileByte(t, m, pos) ==
                 if m == n && pos / BLOCK_SIZE == l then x[pos % BLOCK_SIZE] else FileByte(s, m, pos)
  {
    var t := SetBlock(s, b, x);
    forall m: nat, r | IsPlace(r) ensures At(t, m, r) == At(s, m, r) { WrittenAt(s, n, PlaceOf(l), b, x, m, r); }
    assert Used(s, b);
    forall m: nat, pos: nat
      ensures FileByte(t, m, pos) == if m == n && pos / BLOCK_SIZE == l then x[pos % BLOCK_SIZE]
              else FileByte(s, m, pos)
    {
      WrittenByte(s, n, l, b, x, m, pos);
    }
    SameTree(s, t);
  }

  lemma WrittenByte(s: Fs, n: nat, l: nat, b: nat, x: Block, m: nat, pos: nat)
    requires l < MAXBLOCKS && IsDataBlock(s, n, PlaceOf(l), b) && Used(s, b)
    ensures var t := SetBlock(s, b, x);
            Shape(t) && FileByte(t, m, pos) == if m == n
                && pos / BLOCK_SIZE == l then x[pos % BLOCK_SIZE] else FileByte(s, m, pos)
  {
    var k := pos / BLOCK_SIZE;
    if k < MAXBLOCKS {
      WrittenAt(s, n, PlaceOf(l), b, x, m, PlaceOf(k));
      if k != l { PlacesDiffer(l, k); }
    }
  }

  lemma SameTree(s: Fs, t: Fs)
    requires Ok(s) && Shape(t) && s.first == t.first && s.nzones == t.nzones && s.bits == t.bits
    requires forall m: nat, r | IsPlace(r) :: At(t, m, r) == At(s, m, r)
    ensures Ok(t) && (Conserved(s) ==> Conserved(t))
  {
    if Conserved(s) {
      forall c: nat | Used(t, c) ensures Owned(t, c) {
        assert Used(s, c) && Owned(s, c);
        var m: nat, q :| IsPlace(q) && At(s, m, q) == c;
        assert At(t, m, q) == c;
      }
    }
  }

  // ---- Giving a file's blocks back ----

  /** Every index block on the way to p can be read. */
  predicate Reached(s: Fs, n: nat, p: Place, bad: set<nat>)
    requires Shape(s) && IsPlace(p)
    decreases Depth(p)
  {
    InInode(p) || (At(s, n, Parent(p)) !in bad && Reached(s, n, Parent(p), bad))
  }

  /** b is a block of file n that truncate gets to and that no other process holds. */
  ghost predicate Freed(s: Fs, n: nat, b: nat, bad: set<nat>, busy: set<nat>)
    requires Shape(s)
  {
    b != 0 && b !in busy && exists p :: IsPlace(p) && At(s, n, p) == b && Reached(s, n, p, bad)
  }

  /** What truncate leaves behind. */
  ghost predicate Truncated(s: Fs, t: Fs, n: nat, bad: set<nat>, busy: set<nat>) {
    && Shape(s) && Shape(t) && n < |s.inodes| && s.blocks == t.blocks && s.first == t.first && s.nzones == t.nzones
    && |s.bits| == |t.bits| && (forall k: nat | k < |s.bits| && !(1 <= k <= s.nzones - s.first) ::
       t.bits[k] == s.bits[k])
    && (forall b: nat | InDataZone(s, b) :: Used(t, b) <==> Used(s, b) && !Freed(s, n, b, bad, busy))
    && t.inodes == s.inodes[n := Inode(seq(9, _ => 0), 0, s.inodes[n].kind)]
  }

  lemma {:induction false} TruncatedAt(s: Fs, t: Fs, n: nat, bad: set<nat>, busy: set<nat>, m: nat, p: Place)
    requires Truncated(s, t, n, bad, busy) && IsPlace(p)
    ensures At(t, m, p) == if m == n then 0 else At(s, m, p)
    decreases Depth(p)
  {
    if HasTree(s, m) && !InInode(p) { TruncatedAt(s, t, n, bad, busy, m, Parent(p)); }
  }

  /** truncate keeps the pointers of all other files good; the file itself is empty. */
  lemma TruncateKeeps(s: Fs, t: Fs, n: nat, bad: set<nat>, busy: set<nat>)
    requires Ok(s) && Truncated(s, t, n, bad, busy)
    ensures Ok(t)
    ensures forall l: nat :: Bmap(t, n, l) == 0
    ensures forall m: nat, pos: nat :: FileByte(t, m, pos) == if m == n then 0 else FileByte(s, m, pos)
  {
    forall m: nat, p | IsPlace(p) ensures At(t, m, p) == if m == n then 0 else At(s, m, p) {
      TruncatedAt(s, t, n, bad, busy, m, p);
    }
    forall m: nat, p | IsPlace(p) && At(t, m, p) != 0 ensures Used(t, At(t, m, p)) {
      var b := At(s, m, p);
      assert Used(s, b);
      assert !Freed(s, n, b, bad, busy);
    }
  }

  /** No block is lost exactly when every block of the file could be freed: each index block that has
      entries was readable, and nobody else held any of the blocks. */
  lemma TruncateConserves(s: Fs, t: Fs, n: nat, bad: set<nat>, busy: set<nat>)
    requires Ok(s) && Conserved(s) && Truncated(s, t, n, bad, busy)
    ensures Conserved(t) <==> forall p | IsPlace(p) && At(s, n, p) != 0 :: Reached(s, n, p, bad) && At(s, n, p) !in busy
  {
    if forall p | IsPlace(p) && At(s, n, p) != 0 :: Reached(s, n, p, bad) && At(s, n, p) !in busy {
      forall b: nat | Used(t, b) ensures Owned(t, b) {
        assert Used(s, b) && Owned(s, b);
        var m: nat, p :| IsPlace(p) && At(s, m, p) == b;
        if m == n { assert Freed(s, n, b, bad, busy); }
        TruncatedAt(s, t, n, bad, busy, m, p);
        assert At(t, m, p) == b;
      }
    }
    if Conserved(t) {
      forall p | IsPlace(p) && At(s, n, p) != 0 ensures Reached(s, n, p, bad) && At(s, n, p) !in busy {
        var b := At(s, n, p);
        assert Used(s, b);
        if Used(t, b) {
          assert Owned(t, b);
          var m: nat, q :| IsPlace(q) && At(t, m, q) == b;
          TruncatedAt(s, t, n, bad, busy, m, q);
          assert false;
        }
        assert Freed(s, n, b, bad, busy);
        var q :| IsPlace(q) && At(s, n, q) == b && Reached(s, n, q, bad);
        assert q == p;
      }
    }
  }

  // ---- create_block ----

  /** Only logical block l of file n may have appeared; no byte of any file has changed. */
  ghost predicate Grew(s: Fs, t: Fs, n: nat, l: nat) {
    && Ok(s) && Ok(t) && (Conserved(s) ==> Conserved(t))
    && t.first == s.first && t.nzones == s.nzones && |t.bits| == |s.bits| && |t.blocks| == |s.blocks|
       && |t.inodes| == |s.inodes|
    && (forall m | 0 <= m < |s.inodes| :: t.inodes[m].size == s.inodes[m].size && t.inodes[m].kind == s.inodes[m].kind)
    && (forall b: nat | Used(s, b) :: Used(t, b))
    && (forall m: nat, pos: nat :: FileByte(t, m, pos) == FileByte(s, m, pos))
    && (forall m: nat, k: nat | m != n || k != l :: Bmap(t, m, k) == Bmap(s, m, k))
  }

  lemma GrewNothing(s: Fs, n: nat, l: nat)
    requires Ok(s)
    ensures Grew(s, s, n, l)
  {}

  lemma GrewThen(s: Fs, t: Fs, u: Fs, n: nat, l: nat)
    requires Grew(s, t, n, l) && Grew(t, u, n, l)
    ensures Grew(s, u, n, l)
  {}

  // ---- What can be read ----

  /** The block number of l can be found out. */
  predicate Visible(s: Fs, n: nat, l: nat, bad: set<nat>)
    requires Shape(s)
  {
    l < MAXBLOCKS && Reached(s, n, PlaceOf(l), bad)
  }

  /** And so can byte pos: its block, if it has one, can be read. */
  predicate Readable(s: Fs, n: nat, pos: nat, bad: set<nat>)
    requires Shape(s)
  {
    var l := pos / BLOCK_SIZE;
    Visible(s, n, l, bad) && (Bmap(s, n, l) == 0 || Bmap(s, n, l) !in bad)
  }

  ghost predicate StillReadable(s: Fs, t: Fs, badWas: set<nat>, bad: set<nat>)
    requires Shape(s) && Shape(t)
  {
    forall m: nat, pos: nat | Readable(s, m, pos, badWas) :: Readable(t, m, pos, bad)
  }

  lemma SameReadable(s: Fs, t: Fs, bad: set<nat>)
    requires Shape(s) && Shape(t) && forall m: nat, q | IsPlace(q) :: At(t, m, q) == At(s, m, q)
    ensures StillReadable(s, t, bad, bad)
  {
    forall m: nat, pos: nat | Readable(s, m, pos, bad) ensures Readable(t, m, pos, bad) {
      SameReached(s, t, bad, m, PlaceOf(pos / BLOCK_SIZE));
    }
  }

  lemma {:induction false} SameReached(s: Fs, t: Fs, bad: set<nat>, m: nat, q: Place)
    requires Shape(s) && Shape(t) && forall m: nat, q | IsPlace(q) :: At(t, m, q) == At(s, m, q)
    requires IsPlace(q) && Reached(s, m, q, bad)
    ensures Reached(t, m, q, bad)
    decreases Depth(q)
  {
    if !InInode(q) { SameReached(s, t, bad, m, Parent(q)); }
  }

  /** A new block that can be read takes nothing away. */
  lemma GrownReadable(s: Fs, t: Fs, badWas: set<nat>, bad: set<nat>, n: nat, p: Place, b: nat)
    requires Shape(s) && Shape(t) && bad <= badWas && b !in bad
    requires forall m: nat, q | IsPlace(q) :: At(t, m, q) == if m == n && q == p then b else At(s, m, q)
    ensures StillReadable(s, t, badWas, bad)
  {
    forall m: nat, pos: nat | Readable(s, m, pos, badWas) ensures Readable(t, m, pos, bad) {
      GrownReached(s, t, badWas, bad, n, p, b, m, PlaceOf(pos / BLOCK_SIZE));
    }
  }

  lemma {:induction false} GrownReached(s: Fs, t: Fs, badWas: set<nat>, bad: set<nat>, n: nat, p: Place, b: nat,
                                        m: nat, q: Place)
    requires Shape(s) && Shape(t) && bad <= badWas && b !in bad
    requires forall m: nat, q | IsPlace(q) :: At(t, m, q) == if m == n && q == p then b else At(s, m, q)
    requires IsPlace(q) && Reached(s, m, q, badWas)
    ensures Reached(t, m, q, bad)
    decreases Depth(q)
  {
    if !InInode(q) { GrownReached(s, t, badWas, bad, n, p, b, m, Parent(q)); }
  }

  /** Nobody holds the buffer of a free block. */
  ghost predicate HeldTaken(s: Fs, busy: set<nat>)
    requires Shape(s)
  {
    forall b | b in busy && InDataZone(s, b) :: Used(s, b)
  }

  lemma GrewOne(s: Fs, n: nat, p: Place, b: nat, l: nat)
    requires CanGrow(s, n, p, b) && l < MAXBLOCKS && (IsData(p) ==> p == PlaceOf(l))
    ensures Grew(s, Grow(s, n, p, b), n, l)
    ensures forall m: nat, q | IsPlace(q) :: At(Grow(s, n, p, b), m, q) == if m == n && q == p then b else At(s, m, q)
  {
    var t := Grow(s, n, p, b);
    GrowKeeps(s, n, p, b);
    GrownShape(s, n, p, b);
    forall m: nat, pos: nat ensures FileByte(t, m, pos) == FileByte(s, m, pos) { GrowKeepsBytes(s, n, p, b, m, pos); }
    forall m: nat, k: nat | m != n || k != l ensures Bmap(t, m, k) == Bmap(s, m, k) {
      if k < MAXBLOCKS && k != l { PlacesDiffer(k, l); }
    }
    assert |t.blocks| == |s.blocks| by { GrownBlock(s, n, p, b, b); }
  }

  /** Nothing hangs below an empty place. */
  lemma HoleBelow(s: Fs, n: nat, p: Place)
    requires Ok(s) && IsPlace(p) && !InInode(p) && At(s, n, Parent(p)) == 0
    ensures At(s, n, p) == 0
  {}

  lemma OkShape(s: Fs)
    requires Ok(s)
    ensures Shape(s)
  {}

  // ---- How far a truncate has come ----

  /** The bitmap t.bits differs from that of s by the blocks of file n at the places `done`, except busy ones. */
  ghost predicate Progress(s: Fs, t: Fs, n: nat, busy: set<nat>, done: set<Place>) {
    && Ok(s) && n < |s.inodes| && Shape(t) && s.blocks == t.blocks && s.first == t.first && s.nzones == t.nzones
       && |s.bits| == |t.bits|
    && (forall p | p in done :: IsPlace(p))
    && (forall k: nat | k < |s.bits| && !(1 <= k <= s.nzones - s.first) :: t.bits[k] == s.bits[k])
    && (forall b: nat | InDataZone(s, b) :: Used(t, b) <==> Used(s, b) && !(b !in busy && HeldAt(s, n, done, b)))
  }

  ghost predicate HeldAt(s: Fs, n: nat, done: set<Place>, b: nat)
    requires Shape(s)
  {
    exists p :: p in done && IsPlace(p) && At(s, n, p) == b
  }

  /** The next block is still marked taken: "bit already cleared" cannot happen. */
  lemma NextStillUsed(s: Fs, t: Fs, n: nat, busy: set<nat>, done: set<Place>, p: Place)
    requires Progress(s, t, n, busy, done) && IsPlace(p) && p !in done && At(s, n, p) != 0
    ensures Used(t, At(s, n, p))
  {
    assert Used(s, At(s, n, p));
  }

  function ClearBit(t: Fs, b: nat): Fs
    requires Shape(t) && InDataZone(t, b)
  {
    Fs(t.blocks, t.bits[b - t.first + 1 := false], t.first, t.nzones, t.inodes)
  }

  lemma Progressed(s: Fs, t: Fs, n: nat, busy: set<nat>, done: set<Place>, p: Place)
    requires Progress(s, t, n, busy, done) && IsPlace(p) && p !in done
    ensures At(s, n, p) == 0 || At(s, n, p) in busy ==> Progress(s, t, n, busy, done + {p})
    ensures At(s, n, p) != 0 && At(s, n, p) !in busy ==>
              InDataZone(t, At(s, n, p)) && Progress(s, ClearBit(t, At(s, n, p)), n, busy, done + {p})
  {
    var c := At(s, n, p);
    if c != 0 { assert Used(s, c); }
    forall b: nat | InDataZone(s, b) ensures HeldAt(s, n, done + {p}, b) <==> HeldAt(s, n, done, b) || b == c {
      if HeldAt(s, n, done, b) {
        var q :| q in done && IsPlace(q) && At(s, n, q) == b;
        assert q in done + {p};
      }
      if b == c { assert p in done + {p}; }
    }
  }

  lemma ProgressElsewhere(s: Fs, t: Fs, u: Fs, n: nat, busy: set<nat>, done: set<Place>)
    requires Progress(s, t, n, busy, done) && Shape(u)
    requires u.blocks == t.blocks && u.bits == t.bits && u.first == t.first && u.nzones == t.nzones
    ensures Progress(s, u, n, busy, done)
  {
    forall b: nat | InDataZone(s, b) ensures Used(u, b) <==> Used(t, b) {}
  }

  lemma ProgressDone(s: Fs, t: Fs, n: nat, bad: set<nat>, busy: set<nat>, done: set<Place>)
    requires Progress(s, t, n, busy, done) && t.inodes == s.inodes[n := Inode(seq(9, _ => 0), 0, s.inodes[n].kind)]
    requires forall p | p in done :: Reached(s, n, p, bad)
    requires forall p | IsPlace(p) && Reached(s, n, p, bad) && At(s, n, p) != 0 :: p in done
    ensures Truncated(s, t, n, bad, busy)
  {
    forall b: nat | InDataZone(s, b) ensures (b !in busy && HeldAt(s, n, done, b)) <==> Freed(s, n, b, bad, busy) {}
  }

  /** Entry j of the index block at q. */
  function Child(q: Place, j: nat): (p: Place)
    requires IsPlace(q) && !IsData(q) && j < ENTRIES
    ensures IsPlace(p) && !InInode(p) && Parent(p) == q && Number(p) == j
  {
    match q
    case Ind => Ent(j)
    case Dind => Mid(j)
    case Mid(i) => Leaf(i, j)
  }

  lemma ReachedBelow(s: Fs, n: nat, p: Place, bad: set<nat>)
    requires Ok(s) && IsPlace(p) && !InInode(p)
    ensures At(s, n, Parent(p)) !in bad && Reached(s, n, Parent(p), bad) ==> Reached(s, n, p, bad)
  {}
}
