/** fs/bitmap.c, fs/inode.c (_bmap), fs/truncate.c and fs/file_dev.c, working in place on a device. */
module FileSystem {
  import opened Zones

  const SLOT := 8192                 // bits in one bitmap block

  datatype Outcome = Done | Kept | Panic

  /** Bit k is block k + first - 1.  new_block panics when it comes upon a free block whose buffer somebody
      holds. */
  ghost predicate NewBlockIs(s: Fs, t: Fs, busy: set<nat>, r: nat, halted: bool) {
    if forall k | 0 <= k < |s.bits| :: s.bits[k] then t == s && r == 0 && !halted
    else exists k: nat | k < |s.bits| :: FirstClear(s, k) && TakesBit(s, t, busy, k, r, halted)
  }

  ghost predicate FirstClear(s: Fs, k: nat) { k < |s.bits| && !s.bits[k] && forall i | 0 <= i < k :: s.bits[i] }

  ghost predicate TakesBit(s: Fs, t: Fs, busy: set<nat>, k: nat, r: nat, halted: bool) {
    var b := k + s.first - 1;
    && k < |s.bits| && t.bits == s.bits[k := true] && t.inodes == s.inodes && t.first == s.first && t.nzones == s.nzones
    && (halted <==> 0 <= b < s.nzones <= |s.blocks| && b in busy)
    && (if 0 <= b < s.nzones <= |s.blocks| && !halted then r == b && t.blocks == s.blocks[r := ZeroBlock()]
        else r == 0 && t.blocks == s.blocks)
  }

  /** On a bitmap in order new_block takes the lowest free block of the data zone, or finds the device full, or
      panics because somebody holds the buffer of that block. */
  lemma NewBlockTakes(s: Fs, t: Fs, busy: set<nat>, r: nat, halted: bool)
    requires Shape(s) && BitmapOk(s) && NewBlockIs(s, t, busy, r, halted)
    ensures halted <==> exists b | b in busy ::
              InDataZone(s, b) && !Used(s, b) && forall c: nat | s.first <= c < b :: Used(s, c)
    ensures HeldTaken(s, busy) ==> !halted
    ensures r == 0 && !halted ==> t == s && forall b: nat | InDataZone(s, b) :: Used(s, b)
    ensures r != 0 ==> !halted && InDataZone(s, r) && !Used(s, r) && r !in busy && t == Take(s, r)
    ensures r != 0 ==> forall b: nat | s.first <= b < r :: Used(s, b)
  {
    if k: nat :| k < |s.bits| && FirstClear(s, k) && TakesBit(s, t, busy, k, r, halted) {
      assert k != 0;
      var b := k + s.first - 1;
      assert InDataZone(s, b) && !Used(s, b) && forall c: nat | s.first <= c < b :: Used(s, c);
      if !halted { assert t == Take(s, r); }
    }
  }

  class Device {
    const blocks: array<Block>       // the device as the buffer cache shows it
    const bits: array<bool>          // s_zmap[0 ..]: whole bitmap blocks
    const inodes: array<Inode>
    const first: nat                 // s_firstdatazone
    const nzones: nat                // s_nzones
    var bad: set<nat>                // blocks that bread fails on
    var busy: set<nat>               // blocks whose buffer another process holds

    ghost function S(): Fs
      reads this, blocks, bits, inodes
    {
      Fs(blocks[..], bits[..], first, nzones, inodes[..])
    }

    ghost predicate Mapped() { bits.Length % SLOT == 0 }

    ghost predicate Valid()
      reads this, blocks, bits, inodes
    {
      Mapped() && Ok(S())
    }

    /** find_first_zero: the first clear bit of bitmap block i, SLOT when there is none. */
    method FindFirstZero(i: nat) returns (j: nat)
      requires (i + 1) * SLOT <= bits.Length
      ensures j <= SLOT && (forall k | i * SLOT <= k < i * SLOT + j :: bits[k]) && (j < SLOT ==> !bits[i * SLOT + j])
    {
      j := 0;
      while j < SLOT && bits[i * SLOT + j]
        invariant j <= SLOT && forall k | i * SLOT <= k < i * SLOT + j :: bits[k]
      {
        j := j + 1;
      }
    }

    /** `halted`: the panic about a buffer that is in use. */
    method NewBlock() returns (r: nat, halted: bool)
      requires Mapped() && Shape(S())
      modifies `bad, blocks, bits
      ensures NewBlockIs(old(S()), S(), busy, r, halted) && bad == if r == 0 then old(bad) else old(bad) - {r}
    {
      ghost var s := S();
      var i, j := ScanBitmap();
      if j >= SLOT { return 0, false; }
      ghost var k := i * SLOT + j;
      assert FirstClear(s, k);
      bits[i * SLOT + j] := true;
      var b := j + i * SLOT + first - 1;
      if b >= nzones {
        assert TakesBit(s, S(), busy, k, 0, false);
        return 0, false;
      }
      if b in busy {
        assert TakesBit(s, S(), busy, k, 0, true);
        return 0, true;
      }
      blocks[b] := ZeroBlock();
      r, halted := b, false;
      assert TakesBit(s, S(), busy, k, r, false);
      if r != 0 { bad := bad - {r}; }
    }

    /** The loop over the bitmap blocks in new_block. */
    method ScanBitmap() returns (i: nat, j: nat)
      requires Mapped()
      ensures j >= SLOT ==> forall k | 0 <= k < bits.Length :: bits[k]
      ensures j < SLOT ==>
                i * SLOT + j < bits.Length && !bits[i * SLOT + j] && forall k | 0 <= k < i * SLOT + j :: bits[k]
    {
      i, j := 0, SLOT;
      while i < bits.Length / SLOT
        invariant i <= bits.Length / SLOT && j == SLOT
        invariant forall k | 0 <= k < i * SLOT :: bits[k]
      {
        j := FindFirstZero(i);
        if j < SLOT { return; }
        i := i + 1;
      }
    }

    /** free_block: the panics are a block outside the data zone and a bit that is clear already. */
    method FreeBlock(b: nat) returns (o: Outcome)
      requires Mapped() && Shape(S())
      modifies bits
      ensures o == (if !InDataZone(S(), b) then Panic
                    else if b in busy then Kept
                    else if !old(bits[b - first + 1]) then Panic
                    else Done)
      ensures bits[..] == if o == Done then old(bits[..])[b - first + 1 := false] else old(bits[..])
    {
      if b < first || b >= nzones { return Panic; }
      if b in busy { return Kept; }
      var k := b - (first - 1);
      var slot, n := k / SLOT, k % SLOT;
      var was := bits[slot * SLOT + n];
      bits[slot * SLOT + n] := false;
      if !was {
        assert bits[..] == old(bits[..]);
        return Panic;
      }
      o := Done;
    }

    // ---- _bmap ----

    /** An empty place of inode n that is stored in the inode gets a new block, if there is one. */
    method GrowZone(n: nat, z: nat, ghost p: Place, ghost l: nat) returns (halted: bool)
      requires Valid() && HasTree(S(), n) && IsPlace(p) && InInode(p) && z == ZoneNo(p) && At(S(), n, p) == 0
      requires l < MAXBLOCKS && (IsData(p) ==> p == PlaceOf(l))
      modifies `bad, blocks, bits, inodes
      ensures HeldTaken(old(S()), busy) ==> !halted
      ensures !halted ==>
                && Valid() && Steady(old(S()), S(), old(bad), bad, busy, n, l) && OnlyAt(old(S()), S(), n, p)
                && (At(S(), n, p) != 0 ==> At(S(), n, p) !in bad)
                && (At(S(), n, p) == 0 ==> S() == old(S()) && bad == old(bad) && Full(S()))
    {
      ghost var s, badWas := S(), bad;
      var b, panic := NewBlock();
      NewBlockTakes(s, S(), busy, b, panic);
      if panic { return true; }
      halted := false;
      if b != 0 {
        assert CanGrow(s, n, p, b);
        GrewSteady(s, badWas, bad, busy, n, p, b, l);
        inodes[n] := inodes[n].(zone := inodes[n].zone[z := b]);
        assert S() == Grow(s, n, p, b);
      } else {
        SteadyNothing(s, bad, busy, n, l);
      }
    }

    /** The same for entry k of the index block h. */
    method GrowEntry(n: nat, h: nat, k: nat, ghost p: Place, ghost l: nat) returns (b: nat, halted: bool)
      requires Valid() && HasTree(S(), n) && IsPlace(p) && !InInode(p) && k == Number(p) && At(S(), n, p) == 0
      requires h == At(S(), n, Parent(p)) && h != 0
      requires l < MAXBLOCKS && (IsData(p) ==> p == PlaceOf(l))
      modifies `bad, blocks, bits, inodes
      ensures HeldTaken(old(S()), busy) ==> !halted
      ensures !halted ==>
                && Valid() && Steady(old(S()), S(), old(bad), bad, busy, n, l) && OnlyAt(old(S()), S(), n, p)
                && b == At(S(), n, p) && (b != 0 ==> b !in bad)
                && (b == 0 ==> S() == old(S()) && bad == old(bad) && Full(S()))
    {
      ghost var s, badWas := S(), bad;
      b, halted := NewBlock();
      NewBlockTakes(s, S(), busy, b, halted);
      if halted { return; }
      if b != 0 {
        assert CanGrow(s, n, p, b);
        GrewSteady(s, badWas, bad, busy, n, p, b, l);
        assert Used(s, h);
        TakenAt(s, b, n, Parent(p));
        blocks[h] := SetIndex(blocks[h], k, b);
        assert S() == Grow(s, n, p, b);
      } else {
        SteadyNothing(s, bad, busy, n, l);
      }
    }

    /** One indirection of _bmap: entry k of index block h, made if need be. */
    method EntryOf(n: nat, h: nat, k: nat, create: bool, ghost p: Place, ghost l: nat) returns (r: nat, halted: bool)
      requires Valid() && HasTree(S(), n) && IsPlace(p) && !InInode(p) && k == Number(p)
      requires h == At(S(), n, Parent(p)) && h != 0
      requires l < MAXBLOCKS && (IsData(p) ==> p == PlaceOf(l))
      modifies `bad, blocks, bits, inodes
      ensures HeldTaken(old(S()), busy) || !create ==> !halted
      ensures !halted ==>
                Valid() && EntryResult(old(S()), S(), old(bad), bad, busy, n, l, h, p, create, r)
    {
      ghost var s := S();
      SteadyNothing(s, bad, busy, n, l);
      if h in bad { return 0, false; }
      assert Used(s, h);
      r, halted := Index(blocks[h], k), false;
      if create && r == 0 { r, halted := GrowEntry(n, h, k, p, l); }
    }

    /** _bmap: the block of logical block `block` of inode n, 0 for none; with `create` it is made. */
    method Map(n: nat, block: nat, create: bool) returns (r: nat, halted: bool)
      requires Valid() && HasTree(S(), n) && block < MAXBLOCKS
      modifies `bad, blocks, bits, inodes
      ensures HeldTaken(old(S()), busy) || !create ==> !halted
      ensures !halted ==> Valid() && MapResult(old(S()), S(), old(bad), bad, busy, n, block, create, r)
      ensures !create ==> LookedUp(S(), bad, n, block, r)
    {
      if block < NDIRECT {
        r, halted := MapDirect(n, block, create);
      } else {
        var k := block - NDIRECT;
        if k < ENTRIES {
          r, halted := MapSingle(n, k, create);
        } else {
          r, halted := MapDouble(n, k - ENTRIES, create);
        }
      }
      if !create { LookUp(S(), bad, busy, n, block, r); }
    }

    /** The direct part of _bmap. */
    method MapDirect(n: nat, block: nat, create: bool) returns (r: nat, halted: bool)
      requires Valid() && HasTree(S(), n) && block < NDIRECT
      modifies `bad, blocks, bits, inodes
      ensures HeldTaken(old(S()), busy) || !create ==> !halted
      ensures !halted ==> Valid() && MapResult(old(S()), S(), old(bad), bad, busy, n, block, create, r)
    {
      SteadyNothing(S(), bad, busy, n, block);
      hide Steady;
      if create && inodes[n].zone[block] == 0 {
        halted := GrowZone(n, block, Zone(block), block);
        if halted { return 0, true; }
      }
      return inodes[n].zone[block], false;
    }

    /** The single indirect part. */
    method MapSingle(n: nat, k: nat, create: bool) returns (r: nat, halted: bool)
      requires Valid() && HasTree(S(), n) && k < ENTRIES
      modifies `bad, blocks, bits, inodes
      ensures HeldTaken(old(S()), busy) || !create ==> !halted
      ensures !halted ==> Valid() && MapResult(old(S()), S(), old(bad), bad, busy, n, NDIRECT + k, create, r)
    {
      hide Steady, Ok, Used, At, MapResult, EntryResult;
      ghost var s, was, l := S(), bad, NDIRECT + k;
      var h, panic := IndexBlock(n, 7, create, Ind, l);
      if panic { return 0, true; }
      ghost var t, mid := S(), bad;
      SteadyFacts(s, t, was, mid, busy, n, l);
      if h == 0 {
        SingleEmpty(s, t, was, mid, busy, n, k, create);
        return 0, false;
      }
      r, halted := EntryOf(n, h, k, create, Ent(k), l);
      if halted { return; }
      SingleMapped(s, t, S(), was, mid, bad, busy, n, k, create, h, r);
    }

    /** The double indirect part. */
    method MapDouble(n: nat, k: nat, create: bool) returns (r: nat, halted: bool)
      requires Valid() && HasTree(S(), n) && k < ENTRIES * ENTRIES
      modifies `bad, blocks, bits, inodes
      ensures HeldTaken(old(S()), busy) || !create ==> !halted
      ensures !halted ==> Valid() && MapResult(old(S()), S(), old(bad), bad, busy, n, NDIRECT + ENTRIES + k, create, r)
    {
      hide Steady, Ok, Used, At, MapResult;
      ghost var s, was, l := S(), bad, NDIRECT + ENTRIES + k;
      var h, panic := IndexBlock(n, 8, create, Dind, l);
      if panic { return 0, true; }
      ghost var t, mid := S(), bad;
      SteadyFacts(s, t, was, mid, busy, n, l);
      if h == 0 {
        DoubleEmpty(s, t, was, mid, busy, n, k, create);
        return 0, false;
      }
      var i, panic2 := EntryOf(n, h, k / ENTRIES, create, Mid(k / ENTRIES), l);
      if panic2 { return 0, true; }
      ghost var u, low := S(), bad;
      SteadyFacts(t, u, mid, low, busy, n, l);
      if i == 0 {
        DoubleStops(s, t, u, was, mid, low, busy, n, k, create, h);
        return 0, false;
      }
      r, halted := EntryOf(n, i, k % ENTRIES, create, Leaf(k / ENTRIES, k % ENTRIES), l);
      if halted { return; }
      DoubleMapped(s, t, u, S(), was, mid, low, bad, busy, n, k, create, h, i, r);
    }

    /** The number of an index block held in the inode, made if need be. */
    method IndexBlock(n: nat, z: nat, create: bool, ghost p: Place, ghost l: nat) returns (h: nat, halted: bool)
      requires Valid() && HasTree(S(), n) && l < MAXBLOCKS && ((p == Ind && z == 7) || (p == Dind && z == 8))
      modifies `bad, blocks, bits, inodes
      ensures HeldTaken(old(S()), busy) || !create ==> !halted
      ensures !halted ==>
                Valid() && IndexResult(old(S()), S(), old(bad), bad, busy, n, l, p, create, h)
    {
      SteadyNothing(S(), bad, busy, n, l);
      hide Steady;
      if create && inodes[n].zone[z] == 0 {
        halted := GrowZone(n, z, p, l);
        if halted { return 0, true; }
      }
      return inodes[n].zone[z], false;
    }

    // ---- fs/truncate.c ----

    /** free_block for the block at place p of the file being truncated. */
    method FreePlace(b: nat, ghost s: Fs, ghost n: nat, ghost done: set<Place>, ghost p: Place)
      requires Mapped() && Progress(s, S(), n, busy, done) && IsPlace(p) && p !in done && b == At(s, n, p) && b != 0
      modifies bits
      ensures Progress(s, S(), n, busy, done + {p})
    {
      ghost var t := S();
      NextStillUsed(s, t, n, busy, done, p);
      Progressed(s, t, n, busy, done, p);
      var o := FreeBlock(b);
      assert o != Panic;
      if o == Done { assert S() == ClearBit(t, b); }
    }

    /** free_ind: the blocks named by the index block at q, then that block. */
    method FreeInd(block: nat, ghost s: Fs, ghost n: nat, ghost done: set<Place>, ghost q: Place)
      returns (ghost now: set<Place>)
      requires Mapped() && Progress(s, S(), n, busy, done) && IsPlace(q) && (q == Ind || q.Mid?) && block == At(s, n, q)
      requires q !in done && forall j: nat | j < ENTRIES :: Child(q, j) !in done
      modifies bits
      ensures Progress(s, S(), n, busy, now) && done <= now
      ensures forall p :: p in now ==>
                p in done || p == q || (IsPlace(p) && !InInode(p) && Parent(p) == q && block !in bad)
      ensures block != 0 ==> q in now
      ensures block != 0 && block !in bad ==>
                forall j: nat | j < ENTRIES && At(s, n, Child(q, j)) != 0 :: Child(q, j) in now
    {
      now := done;
      if block == 0 { return; }
      ghost var u := S();
      if block !in bad { now := FreeEntries(block, s, n, done, q); }
      FreePlace(block, s, n, now, q);
      now := now + {q};
    }

    /** The loop of free_ind. */
    method FreeEntries(block: nat, ghost s: Fs, ghost n: nat, ghost done: set<Place>, ghost q: Place)
      returns (ghost now: set<Place>)
      requires Mapped() && Progress(s, S(), n, busy, done) && IsPlace(q) && (q == Ind || q.Mid?)
               && block == At(s, n, q) && block != 0
      requires forall j: nat | j < ENTRIES :: Child(q, j) !in done
      modifies bits
      ensures Progress(s, S(), n, busy, now) && done <= now
      ensures forall p | p in now && p !in done :: IsPlace(p) && !InInode(p) && Parent(p) == q
      ensures forall j: nat | j < ENTRIES && At(s, n, Child(q, j)) != 0 :: Child(q, j) in now
    {
      now := done;
      var i := 0;
      while i < ENTRIES
        invariant i <= ENTRIES && FreeingEntries(s, S(), n, busy, done, now, q, i)
      {
        now := FreeEntry(block, i, s, n, done, now, q);
        i := i + 1;
      }
    }

    /** The body of that loop. */
    method FreeEntry(block: nat, i: nat, ghost s: Fs, ghost n: nat, ghost done: set<Place>, ghost was: set<Place>,
                     ghost q: Place)
      returns (ghost now: set<Place>)
      requires Mapped() && FreeingEntries(s, S(), n, busy, done, was, q, i) && (q == Ind || q.Mid?) && i < ENTRIES
      requires block == At(s, n, q) && block != 0 && Child(q, i) !in done
      modifies bits
      ensures FreeingEntries(s, S(), n, busy, done, now, q, i + 1)
    {
      now := was;
      BlockOfPlace(s, S(), n, busy, now, q);
      hide Progress, At, Child;
      var b := Index(blocks[block], i);
      assert b == At(s, n, Child(q, i));
      if b != 0 {
        FreePlace(b, s, n, now, Child(q, i));
        now := now + {Child(q, i)};
      }
    }

    /** free_dind. */
    method FreeDind(block: nat, ghost s: Fs, ghost n: nat, ghost done: set<Place>) returns (ghost now: set<Place>)
      requires Mapped() && Progress(s, S(), n, busy, done) && block == At(s, n, Dind)
      requires forall p | p in done :: !p.Dind? && !p.Mid? && !p.Leaf?
      modifies bits
      ensures Progress(s, S(), n, busy, now) && done <= now
      ensures forall p | p in now && p !in done :: (p.Dind? || p.Mid? || p.Leaf?) && IsPlace(p) && Reached(s, n, p, bad)
      ensures forall p | IsPlace(p) && (p.Dind? || p.Mid? || p.Leaf?) && At(s, n, p) != 0 && Reached(s, n, p, bad) ::
              p in now
    {
      now := done;
      if block == 0 {
        NothingBelow(s, n);
        return;
      }
      DindReached(s, n, bad);
      hide Progress, At, Reached, MidFreed;
      if block !in bad { now := FreeMids(block, s, n, done); }
      ghost var mids := now;
      FreePlace(block, s, n, now, Dind);
      now := now + {Dind};
      AllBelow(s, n, bad, mids, now);
    }

    /** The loop of free_dind. */
    method FreeMids(block: nat, ghost s: Fs, ghost n: nat, ghost done: set<Place>) returns (ghost now: set<Place>)
      requires Mapped() && Progress(s, S(), n, busy, done) && block == At(s, n, Dind) && block != 0 && block !in bad
      requires forall p | p in done :: !p.Dind? && !p.Mid? && !p.Leaf?
      modifies bits
      ensures Progress(s, S(), n, busy, now) && done <= now
      ensures forall p | p in now && p !in done :: (p.Mid? || p.Leaf?) && IsPlace(p) && Reached(s, n, p, bad)
      ensures forall i: nat | i < ENTRIES :: MidFreed(s, n, bad, now, i)
    {
      now := done;
      var i := 0;
      while i < ENTRIES
        invariant i <= ENTRIES && FreeingMids(s, S(), n, bad, busy, done, now, i)
      {
        now := FreeMid(block, i, s, n, done, now);
        i := i + 1;
      }
    }

    /** The body of that loop. */
    method FreeMid(block: nat, i: nat, ghost s: Fs, ghost n: nat, ghost done: set<Place>, ghost was: set<Place>)
      returns (ghost now: set<Place>)
      requires Mapped() && FreeingMids(s, S(), n, bad, busy, done, was, i) && i < ENTRIES
      requires block == At(s, n, Dind) && block != 0 && block !in bad
      requires forall p | p in done :: !p.Dind? && !p.Mid? && !p.Leaf?
      modifies bits
      ensures FreeingMids(s, S(), n, bad, busy, done, now, i + 1)
    {
      now := was;
      BlockOfPlace(s, S(), n, busy, now, Dind);
      hide Progress, At, Reached, MidFreed;
      var b := Index(blocks[block], i);
      assert b == At(s, n, Child(Dind, i));
      ghost var t := S();
      if b != 0 { now := FreeInd(b, s, n, now, Mid(i)); }
      MidDone(s, t, S(), n, bad, busy, done, was, now, i);
    }

    /** truncate: only regular files and directories. */
    method Truncate(n: nat)
      requires Valid() && n < inodes.Length
      modifies bits, inodes
      ensures Valid()
      ensures if old(inodes[n]).kind.File? then Truncated(old(S()), S(), n, bad, busy) else S() == old(S())
    {
      if !inodes[n].kind.File? { return; }
      ghost var s := S();
      ghost var done := FreeDirect(s, n);
      IndReached(s, n, bad);
      ghost var now := FreeInd(inodes[n].zone[7], s, n, done, Ind);
      ghost var all := FreeDind(inodes[n].zone[8], s, n, now);
      ghost var t := S();
      inodes[n] := Inode(inodes[n].zone[7 := 0][8 := 0], 0, inodes[n].kind);
      TruncateCovered(s, n, bad, done, now, all);
      TruncateEnds(s, t, S(), n, bad, busy, all);
    }

    /** The first loop of truncate: the direct blocks. */
    method FreeDirect(ghost s: Fs, n: nat) returns (ghost done: set<Place>)
      requires Valid() && HasTree(S(), n) && s == S()
      modifies bits, inodes
      ensures Mapped() && Progress(s, S(), n, busy, done)
      ensures forall p | p in done :: p.Zone? && IsPlace(p)
      ensures forall i: nat | i < NDIRECT && At(s, n, Zone(i)) != 0 :: Zone(i) in done
      ensures |inodes[n].zone| == 9 && inodes[n].kind == s.inodes[n].kind
              && (forall i | 0 <= i < NDIRECT :: inodes[n].zone[i] == 0)
      ensures forall i | NDIRECT <= i < 9 :: inodes[n].zone[i] == s.inodes[n].zone[i]
      ensures inodes[..] == s.inodes[n := inodes[n]]
    {
      done := {};
      ProgressBegins(s, n, busy);
      var i := 0;
      while i < NDIRECT
        invariant i <= NDIRECT && FreeingZones(s, S(), n, busy, done, i)
      {
        done := FreeZone(s, n, done, i);
        i := i + 1;
      }
    }

    /** The body of that loop. */
    method FreeZone(ghost s: Fs, n: nat, ghost was: set<Place>, i: nat) returns (ghost done: set<Place>)
      requires Mapped() && n < inodes.Length && i < NDIRECT && FreeingZones(s, S(), n, busy, was, i)
      modifies bits, inodes
      ensures FreeingZones(s, S(), n, busy, done, i + 1)
    {
      done := was;
      ghost var t := S();
      ZoneReady(s, t, n, busy, was, i);
      hide *;
      if inodes[n].zone[i] != 0 {
        FreePlace(inodes[n].zone[i], s, n, done, Zone(i));
        done := done + {Zone(i)};
        ghost var u := S();
        inodes[n] := inodes[n].(zone := inodes[n].zone[i := 0]);
        assert S() == SetInode(u, n, t.inodes[n].(zone := t.inodes[n].zone[i := 0])) by { assert u.inodes == t.inodes; }
        ZoneDone(s, t, u, S(), n, busy, was, i);
      } else {
        ZoneSkipped(s, t, n, busy, was, i);
      }
    }

    // ---- fs/file_dev.c ----

    /** file_read from position pos: the bytes read and the new position.  An index block that cannot be
        read makes its part of the file look like a hole; a data block that cannot be read ends the
        transfer. */
    method FileRead(n: nat, pos: nat, count: nat) returns (out: seq<Byte>, end: nat)
      requires Valid() && HasTree(S(), n) && pos + count <= MAXBLOCKS * BLOCK_SIZE
      modifies `bad, blocks, bits, inodes
      ensures S() == old(S()) && bad == old(bad) && ReadResult(S(), n, pos, count, out, end, bad)
    {
      out, end := [], pos;
      ghost var s, b := S(), bad;
      while |out| < count
        invariant |out| <= count && end == pos + |out| && Valid() && S() == s && bad == b
        invariant forall k | 0 <= k < |out| :: out[k] == VisibleByte(s, n, pos + k, b)
        invariant |out| < count ==> |out| == 0 || end % BLOCK_SIZE == 0
        decreases count - |out|
      {
        hide Ok, Readable, Visible, VisibleByte;
        var part, ok := ReadChunk(n, end, count - |out|);
        if !ok { break; }
        out, end := out + part, end + |part|;
      }
    }

    /** The body of its loop: what is left to read of the block of pos. */
    method ReadChunk(n: nat, pos: nat, left: nat) returns (part: seq<Byte>, ok: bool)
      requires Valid() && HasTree(S(), n) && left > 0 && pos + left <= MAXBLOCKS * BLOCK_SIZE
      modifies `bad, blocks, bits, inodes
      ensures S() == old(S()) && bad == old(bad)
      ensures !ok ==> Visible(S(), n, pos / BLOCK_SIZE, bad) && !Readable(S(), n, pos, bad)
      ensures ok ==> 0 < |part| <= left && (|part| == left || (pos + |part|) % BLOCK_SIZE == 0)
      ensures ok ==> forall k | 0 <= k < |part| :: part[k] == VisibleByte(S(), n, pos + k, bad)
    {
      ghost var s, b := S(), bad;
      var nr, halted := Map(n, pos / BLOCK_SIZE, false);
      MapLooks(s, S(), b, bad, busy, n, pos / BLOCK_SIZE, nr);
      if nr != 0 && nr in bad {
        VisibleMapped(s, n, pos, b, busy, nr);
        return [], false;
      }
      var at := pos % BLOCK_SIZE;
      var chars := if BLOCK_SIZE - at < left then BLOCK_SIZE - at else left;
      ChunkVisible(s, n, pos, chars, b, busy, nr);
      hide Ok, MapResult, Readable, Visible, VisibleByte;
      return if nr != 0 then blocks[nr][at..at + chars] else ZeroBlock()[at..at + chars], true;
    }

    /** file_write: from f_pos, or from the end of the file with O_APPEND.  Returns the count written,
        -1 for nothing, and the new f_pos; `halted` is the panic of new_block. */
    method FileWrite(n: nat, fpos: nat, append: bool, buf: seq<Byte>) returns (r: int, end: nat, halted: bool)
      requires Valid() && HasTree(S(), n)
      requires (if append then inodes[n].size else fpos) + |buf| <= MAXBLOCKS * BLOCK_SIZE
      modifies `bad, blocks, bits, inodes
      ensures HeldTaken(old(S()), busy) ==> !halted
      ensures !halted ==>
                var w, start := (if r < 0 then 0 else r), (if append then old(inodes[n].size) else fpos);
                && Valid() && r == (if w > 0 then w else -1) && w <= |buf|
                && Writes(old(S()), S(), old(bad), bad, busy, n, start, buf[..w])
                && end == (if append then fpos else start + w)
                && (w < |buf| ==> Stuck(S(), n, (start + w) / BLOCK_SIZE, bad))
    {
      hide Ok, Writes, Stuck;
      ghost var s, was := S(), bad;
      var start := if append then inodes[n].size else fpos;
      var pos, i := start, 0;
      ghost var stuck := false;
      r, end, halted := -1, fpos, false;
      WritesNothing(s, was, busy, n, start);
      while i < |buf|
        invariant 0 <= i <= |buf| && pos == start + i && !stuck && !halted
        invariant Valid() && Writes(s, S(), was, bad, busy, n, start, buf[..i]) && HasTree(S(), n) && Shape(s)
                  && Shape(S())
        invariant HeldTaken(s, busy) ==> HeldTaken(S(), busy)
      {
        ghost var t, mid := S(), bad;
        var c, panic := WriteChunk(n, pos, buf[i..]);
        if panic { return -1, fpos, true; }
        WritesMore(s, t, S(), was, mid, bad, busy, n, start, buf, i, c);
        if c == 0 {
          stuck := true;
          break;
        }
        pos, i := pos + c, i + c;
      }
      end := if append then fpos else pos;
      r := if i != 0 then i else -1;
    }

    /** The body of the loop of file_write: the part of buf that fits into the block of pos. */
    method WriteChunk(n: nat, pos: nat, buf: seq<Byte>) returns (c: nat, halted: bool)
      requires Valid() && HasTree(S(), n) && buf != [] && pos + |buf| <= MAXBLOCKS * BLOCK_SIZE
      modifies `bad, blocks, bits, inodes
      ensures HeldTaken(old(S()), busy) ==> !halted
      ensures !halted ==>
                && Valid() && c <= |buf| && Writes(old(S()), S(), old(bad), bad, busy, n, pos, buf[..c])
                && (c == 0 ==> Stuck(S(), n, pos / BLOCK_SIZE, bad))
    {
      ghost var s, was := S(), bad;
      var l := pos / BLOCK_SIZE;
      var b, panic := Map(n, l, true);
      if panic { return 0, true; }
      ghost var t := S();
      halted := false;
      if b == 0 || b in bad {
        WroteBlank(s, t, n, l, pos);
        WritesChunk(s, t, t, was, bad, busy, n, l, pos, []);
        return 0, false;
      }
      var at := pos % BLOCK_SIZE;
      c := if BLOCK_SIZE - at > |buf| then |buf| else BLOCK_SIZE - at;
      var x := blocks[b];
      blocks[b] := x[..at] + buf[..c] + x[at + c..];
      ghost var u := S();
      if pos + c > inodes[n].size { inodes[n] := inodes[n].(size := pos + c); }
      WroteChunk(s, t, u, S(), n, l, b, pos, buf[..c]);
      WroteAt(t, u, S(), n, l, b, blocks[b], inodes[n].size);
      WritesChunk(s, t, S(), was, bad, busy, n, l, pos, buf[..c]);
    }
  }

  /** What file_read returns: the visible bytes, up to the first block that cannot be read. */
  ghost predicate ReadResult(s: Fs, n: nat, pos: nat, count: nat, out: seq<Byte>, end: nat, bad: set<nat>)
    requires Shape(s)
  {
    && |out| <= count && end == pos + |out|
    && (forall k | 0 <= k < |out| :: out[k] == VisibleByte(s, n, pos + k, bad))
    && (|out| < count ==>
         (end % BLOCK_SIZE == 0 || |out| == 0) && Visible(s, n, end / BLOCK_SIZE, bad) && !Readable(s, n, end, bad))
  }

  /** Why a write stops early: the index cannot be read, the device is full, or the block cannot be read. */
  ghost predicate Stuck(s: Fs, n: nat, l: nat, bad: set<nat>)
    requires Shape(s)
  {
    !Visible(s, n, l, bad) || Bmap(s, n, l) in bad || (Bmap(s, n, l) == 0 && Full(s))
  }

  /** t is s with `data` laid over file n from `start` on. */
  ghost predicate Wrote(s: Fs, t: Fs, n: nat, start: nat, data: seq<Byte>) {
    && Ok(s) && Ok(t) && (Conserved(s) ==> Conserved(t)) && n < |s.inodes| == |t.inodes|
    && (forall m: nat, p: nat ::
          FileByte(t, m, p) == if m == n && start <= p < start + |data| then data[p - start] else FileByte(s, m, p))
    && (forall m | 0 <= m < |s.inodes| ::
         t.inodes[m].kind == s.inodes[m].kind && (m != n ==> t.inodes[m].size == s.inodes[m].size))
    && t.inodes[n].size == (if data != [] && start + |data| > s.inodes[n].size then start + |data|
       else s.inodes[n].size)
  }

  /** And every byte of it can be read back, like everything that could be read before. */
  ghost predicate Writes(s: Fs, t: Fs, badWas: set<nat>, bad: set<nat>, busy: set<nat>, n: nat, start: nat,
                         data: seq<Byte>) {
    && Wrote(s, t, n, start, data) && bad <= badWas && StillReadable(s, t, badWas, bad)
    && (HeldTaken(s, busy) ==> HeldTaken(t, busy))
    && forall p: nat | start <= p < start + |data| :: Readable(t, n, p, bad)
  }

  lemma WritesNothing(s: Fs, bad: set<nat>, busy: set<nat>, n: nat, start: nat)
    requires Ok(s) && n < |s.inodes|
    ensures Writes(s, s, bad, bad, busy, n, start, []) && Shape(s)
  {}

  lemma WritesMore(s: Fs, t: Fs, u: Fs, was: set<nat>, mid: set<nat>, bad: set<nat>, busy: set<nat>, n: nat,
                   start: nat, buf: seq<Byte>, i: nat, c: nat)
    requires i + c <= |buf| && Writes(s, t, was, mid, busy, n, start, buf[..i])
             && Writes(t, u, mid, bad, busy, n, start + i, buf[i..][..c])
    ensures Writes(s, u, was, bad, busy, n, start, buf[..i + c])
    ensures Shape(s) && Shape(t) && Shape(u) && (HeldTaken(s, busy) ==> HeldTaken(u, busy))
            && (HasTree(t, n) ==> HasTree(u, n))
  {
    WroteMore(s, t, u, n, start, buf, i, c);
    hide FileByte, Readable, Conserved, Bmap;
    forall p: nat | start <= p < start + (i + c) ensures Readable(u, n, p, bad) {
      if p < start + i { assert Readable(t, n, p, mid); }
    }
  }

  /** The bytes written are those of a block that is mapped and can be read. */
  lemma WritesChunk(s: Fs, t: Fs, v: Fs, was: set<nat>, bad: set<nat>, busy: set<nat>, n: nat, l: nat, pos: nat,
                    data: seq<Byte>)
    requires Steady(s, t, was, bad, busy, n, l) && Wrote(s, v, n, pos, data) && l == pos / BLOCK_SIZE
             && pos % BLOCK_SIZE + |data| <= BLOCK_SIZE
    requires v.bits == t.bits && v.first == t.first && v.nzones == t.nzones
             && forall m: nat, q | IsPlace(q) :: At(v, m, q) == At(t, m, q)
    requires data != [] ==> l < MAXBLOCKS && Reached(t, n, PlaceOf(l), bad) && Bmap(t, n, l) !in bad
    ensures Writes(s, v, was, bad, busy, n, pos, data)
  {
    SameReadable(t, v, bad);
    forall p: nat | pos <= p < pos + |data| ensures Readable(v, n, p, bad) {
      SameBlock(pos, p - pos);
      assert Readable(t, n, p, bad);
    }
    assert HeldTaken(t, busy) ==> HeldTaken(v, busy) by { hide At, Readable; }
  }

  lemma WroteBlank(s: Fs, t: Fs, n: nat, l: nat, start: nat)
    requires Grew(s, t, n, l) && n < |s.inodes|
    ensures Wrote(s, t, n, start, [])
  {}

  lemma WroteMore(s: Fs, t: Fs, u: Fs, n: nat, start: nat, buf: seq<Byte>, i: nat, c: nat)
    requires i + c <= |buf| && Wrote(s, t, n, start, buf[..i]) && Wrote(t, u, n, start + i, buf[i..][..c])
    ensures Wrote(s, u, n, start, buf[..i + c])
  {
    var a, b, d := buf[..i], buf[i..][..c], buf[..i + c];
    forall k | 0 <= k < i + c ensures d[k] == if k < i then a[k] else b[k - i] {}
    forall m: nat, p: nat
      ensures FileByte(u, m, p) == if m == n && start <= p < start + |d| then d[p - start] else FileByte(s, m, p)
    {}
  }

  lemma WroteChunk(s: Fs, t: Fs, u: Fs, v: Fs, n: nat, l: nat, b: nat, pos: nat, data: seq<Byte>)
    requires Grew(s, t, n, l) && n < |s.inodes| && l == pos / BLOCK_SIZE < MAXBLOCKS && b == Bmap(t, n, l) && b != 0
    requires data != [] && pos % BLOCK_SIZE + |data| <= BLOCK_SIZE && b < |t.blocks|
    requires var x, at := t.blocks[b], pos % BLOCK_SIZE; u == SetBlock(t, b, x[..at] + data + x[at + |data|..])
    requires v == SetInode(u, n, u.inodes[n].(size := if pos + |data| > u.inodes[n].size then pos + |data|
                                                      else u.inodes[n].size))
    ensures Wrote(s, v, n, pos, data)
  {
    var x, at := t.blocks[b], pos % BLOCK_SIZE;
    var y: Block := x[..at] + data + x[at + |data|..];
    WriteKeeps(t, n, l, b, y);
    SizeOnly(u, n, u.inodes[n].(size := if pos + |data| > u.inodes[n].size then pos + |data| else u.inodes[n].size));
    hide Ok, Conserved, Grew;
    forall m: nat, p: nat
      ensures FileByte(v, m, p) == if m == n && pos <= p < pos + |data| then data[p - pos] else FileByte(s, m, p)
    {
      OverlayByte(t, n, l, b, pos, data, m, p);
    }
  }

  /** The block numbers stay where they are. */
  lemma WroteAt(t: Fs, u: Fs, v: Fs, n: nat, l: nat, b: nat, x: Block, size: nat)
    requires Ok(t) && n < |t.inodes| && l < MAXBLOCKS && b == Bmap(t, n, l) && b != 0
    requires u == SetBlock(t, b, x) && v == SetInode(u, n, u.inodes[n].(size := size))
    ensures Shape(v) && forall m: nat, q | IsPlace(q) :: At(v, m, q) == At(t, m, q)
  {
    WriteKeeps(t, n, l, b, x);
    forall m: nat, q | IsPlace(q) ensures At(v, m, q) == At(u, m, q) {
      SizeOnlyAt(u, n, u.inodes[n].(size := size), m, q);
    }
  }

  /** Byte p of file m, seen through the block that is written. */
  lemma OverlayByte(t: Fs, n: nat, l: nat, b: nat, pos: nat, data: seq<Byte>, m: nat, p: nat)
    requires Ok(t) && l == pos / BLOCK_SIZE < MAXBLOCKS && b == Bmap(t, n, l) && b != 0 && b < |t.blocks|
    requires data != [] && pos % BLOCK_SIZE + |data| <= BLOCK_SIZE
    ensures var x, at := t.blocks[b], pos % BLOCK_SIZE;
            var y := x[..at] + data + x[at + |data|..];
            (if m == n && p / BLOCK_SIZE == l then y[p % BLOCK_SIZE] else FileByte(t, m, p))
            == if m == n && pos <= p < pos + |data| then data[p - pos] else FileByte(t, m, p)
  {
    assert Used(t, b);
    if m == n && pos <= p < pos + |data| { SameBlock(pos, p - pos); }
  }

  /** The size in the inode has no part in where a file's blocks are. */
  lemma SizeOnly(s: Fs, n: nat, x: Inode)
    requires Ok(s) && n < |s.inodes| && x.zone == s.inodes[n].zone && x.kind == s.inodes[n].kind
    ensures var t := SetInode(s, n, x); Ok(t) && (Conserved(s) ==> Conserved(t))
    ensures forall m: nat, p: nat :: FileByte(SetInode(s, n, x), m, p) == FileByte(s, m, p)
  {
    var t := SetInode(s, n, x);
    forall m: nat, q | IsPlace(q) ensures At(t, m, q) == At(s, m, q) { SizeOnlyAt(s, n, x, m, q); }
    SameTree(s, t);
  }

  lemma {:induction false} SizeOnlyAt(s: Fs, n: nat, x: Inode, m: nat, q: Place)
    requires Shape(s) && n < |s.inodes| && x.zone == s.inodes[n].zone && x.kind == s.inodes[n].kind && IsPlace(q)
    ensures var t := SetInode(s, n, x); Shape(t) && At(t, m, q) == At(s, m, q)
    decreases Depth(q)
  {
    if !InInode(q) { SizeOnlyAt(s, n, x, m, Parent(q)); }
  }

  /** What file_read delivers: the file's byte, or zero where the index cannot be read. */
  function VisibleByte(s: Fs, n: nat, pos: nat, bad: set<nat>): Byte
    requires Shape(s)
  {
    if Visible(s, n, pos / BLOCK_SIZE, bad) then FileByte(s, n, pos) else 0
  }

  lemma MapLooks(s: Fs, t: Fs, badWas: set<nat>, bad: set<nat>, busy: set<nat>, n: nat, l: nat, r: nat)
    requires MapResult(s, t, badWas, bad, busy, n, l, false, r)
    ensures t == s && bad == badWas
  {}

  lemma VisibleMapped(s: Fs, n: nat, pos: nat, bad: set<nat>, busy: set<nat>, r: nat)
    requires MapResult(s, s, bad, bad, busy, n, pos / BLOCK_SIZE, false, r) && r != 0 && r in bad
    ensures Shape(s) && Visible(s, n, pos / BLOCK_SIZE, bad) && !Readable(s, n, pos, bad)
  {
    OkShape(s);
  }

  lemma ChunkVisible(s: Fs, n: nat, pos: nat, chars: nat, bad: set<nat>, busy: set<nat>, r: nat)
    requires MapResult(s, s, bad, bad, busy, n, pos / BLOCK_SIZE, false, r) && pos % BLOCK_SIZE + chars <= BLOCK_SIZE
    ensures Shape(s) && r < |s.blocks|
    ensures forall p | pos <= p < pos + chars ::
              VisibleByte(s, n, p, bad) == if r != 0 then s.blocks[r][pos % BLOCK_SIZE + (p - pos)] else 0
  {
    OkShape(s);
    if r != 0 { assert Used(s, Bmap(s, n, pos / BLOCK_SIZE)); }
    forall p | pos <= p < pos + chars
      ensures VisibleByte(s, n, p, bad) == if r != 0 then s.blocks[r][pos % BLOCK_SIZE + (p - pos)] else 0
    {
      SameBlock(pos, p - pos);
    }
  }

  lemma SameBlock(pos: nat, k: nat)
    requires pos % BLOCK_SIZE + k < BLOCK_SIZE
    ensures (pos + k) / BLOCK_SIZE == pos / BLOCK_SIZE && (pos + k) % BLOCK_SIZE == pos % BLOCK_SIZE + k
  {}

  /** The first i direct blocks are dealt with. */
  ghost predicate FreeingZones(s: Fs, t: Fs, n: nat, busy: set<nat>, done: set<Place>, i: nat) {
    && Progress(s, t, n, busy, done) && HasTree(s, n) && n < |t.inodes|
    && (forall p | p in done :: p.Zone? && IsPlace(p) && p.i < i)
    && (forall j: nat | j < i && j < NDIRECT && At(s, n, Zone(j)) != 0 :: Zone(j) in done)
    && |t.inodes[n].zone| == 9 && t.inodes[n].kind == s.inodes[n].kind && t.inodes == s.inodes[n := t.inodes[n]]
    && forall j | 0 <= j < 9 :: t.inodes[n].zone[j] == if j < i then 0 else s.inodes[n].zone[j]
  }

  lemma ZoneReady(s: Fs, t: Fs, n: nat, busy: set<nat>, done: set<Place>, i: nat)
    requires FreeingZones(s, t, n, busy, done, i) && i < NDIRECT
    ensures Progress(s, t, n, busy, done) && IsPlace(Zone(i)) && Zone(i) !in done
    ensures n < |t.inodes| && |t.inodes[n].zone| == 9 && At(s, n, Zone(i)) == t.inodes[n].zone[i]
  {}

  lemma ZoneDone(s: Fs, t: Fs, u: Fs, v: Fs, n: nat, busy: set<nat>, done: set<Place>, i: nat)
    requires FreeingZones(s, t, n, busy, done, i) && i < NDIRECT && Progress(s, u, n, busy, done + {Zone(i)})
    requires u.inodes == t.inodes && n < |t.inodes| && |t.inodes[n].zone| == 9
    requires v == SetInode(u, n, t.inodes[n].(zone := t.inodes[n].zone[i := 0]))
    ensures FreeingZones(s, v, n, busy, done + {Zone(i)}, i + 1)
  {
    ProgressElsewhere(s, u, v, n, busy, done + {Zone(i)});
    hide Progress, At;
  }

  lemma ZoneSkipped(s: Fs, t: Fs, n: nat, busy: set<nat>, done: set<Place>, i: nat)
    requires FreeingZones(s, t, n, busy, done, i) && i < NDIRECT && t.inodes[n].zone[i] == 0
    ensures FreeingZones(s, t, n, busy, done, i + 1)
  {
    hide Progress;
  }

  /** The first i entries of the double indirect block are dealt with. */
  ghost predicate FreeingMids(s: Fs, t: Fs, n: nat, bad: set<nat>, busy: set<nat>, done: set<Place>, now: set<Place>,
                              i: nat) {
    && Progress(s, t, n, busy, now) && done <= now
    && (forall p | p in now && p !in done :: (p.Mid? || p.Leaf?) && p.i < i && IsPlace(p) && Reached(s, n, p, bad))
    && (forall j: nat | j < i && j < ENTRIES :: MidFreed(s, n, bad, now, j))
  }

  lemma MidDone(s: Fs, t: Fs, u: Fs, n: nat, bad: set<nat>, busy: set<nat>, done: set<Place>, was: set<Place>,
                now: set<Place>, i: nat)
    requires FreeingMids(s, t, n, bad, busy, done, was, i) && i < ENTRIES && Shape(s) && At(s, n, Dind) !in bad
    requires Progress(s, u, n, busy, now) && was <= now
    requires var b := At(s, n, Mid(i));
             && (b != 0 ==> Mid(i) in now)
             && (b != 0 && b !in bad ==> forall j: nat | j < ENTRIES
                && At(s, n, Child(Mid(i), j)) != 0 :: Child(Mid(i), j) in now)
             && forall p :: p in now ==>
                  p in was || p == Mid(i) || (IsPlace(p) && !InInode(p) && Parent(p) == Mid(i) && b !in bad)
    ensures FreeingMids(s, u, n, bad, busy, done, now, i + 1)
  {
    BelowMid(s, n, bad, i);
    hide Progress, At, Reached;
    forall j: nat | j < i ensures MidFreed(s, n, bad, now, j) { assert MidFreed(s, n, bad, was, j); }
    assert MidFreed(s, n, bad, now, i) by { forall j: nat | j < ENTRIES ensures Child(Mid(i), j) == Leaf(i, j) {} }
  }

  /** The first i entries of the index block at q are dealt with. */
  ghost predicate FreeingEntries(s: Fs, t: Fs, n: nat, busy: set<nat>, done: set<Place>, now: set<Place>, q: Place,
                                 i: nat) {
    && Progress(s, t, n, busy, now) && done <= now && IsPlace(q) && !IsData(q)
    && (forall p | p in now && p !in done :: IsPlace(p) && !InInode(p) && Parent(p) == q && Number(p) < i)
    && (forall j: nat | j < i && j < ENTRIES && At(s, n, Child(q, j)) != 0 :: Child(q, j) in now)
  }

  /** The index block i of the double indirect tree is dealt with. */
  ghost predicate MidFreed(s: Fs, n: nat, bad: set<nat>, now: set<Place>, i: nat)
    requires Shape(s) && i < ENTRIES
  {
    At(s, n, Mid(i)) != 0 ==>
      && Mid(i) in now
      && (At(s, n, Mid(i)) !in bad ==> forall j: nat | j < ENTRIES && At(s, n, Leaf(i, j)) != 0 :: Leaf(i, j) in now)
  }

  lemma BlockOfPlace(s: Fs, t: Fs, n: nat, busy: set<nat>, done: set<Place>, q: Place)
    requires Progress(s, t, n, busy, done) && IsPlace(q) && !IsData(q) && At(s, n, q) != 0
    ensures Shape(s) && At(s, n, q) < |t.blocks|
    ensures forall j: nat | j < ENTRIES :: At(s, n, Child(q, j)) == Index(t.blocks[At(s, n, q)], j)
  {
    assert Used(s, At(s, n, q));
  }

  /** When the double indirect block can be read, so can be reached what hangs below it. */
  lemma BelowMid(s: Fs, n: nat, bad: set<nat>, i: nat)
    requires Shape(s) && At(s, n, Dind) !in bad && i < ENTRIES
    ensures Reached(s, n, Mid(i), bad)
    ensures At(s, n, Mid(i)) !in bad ==> forall j: nat | j < ENTRIES :: Reached(s, n, Leaf(i, j), bad)
  {}

  lemma NothingBelow(s: Fs, n: nat)
    requires Ok(s) && At(s, n, Dind) == 0
    ensures forall p | IsPlace(p) && (p.Dind? || p.Mid? || p.Leaf?) :: At(s, n, p) == 0
  {
    forall p | IsPlace(p) && (p.Dind? || p.Mid? || p.Leaf?) ensures At(s, n, p) == 0 {
      if p.Leaf? { HoleBelow(s, n, Mid(p.i)); }
      if !p.Dind? { HoleBelow(s, n, p); }
    }
  }

  lemma DindReached(s: Fs, n: nat, bad: set<nat>)
    requires Ok(s)
    ensures Shape(s) && Reached(s, n, Dind, bad)
  {}

  lemma AllBelow(s: Fs, n: nat, bad: set<nat>, mids: set<Place>, now: set<Place>)
    requires Ok(s) && Dind in now && mids <= now
    requires At(s, n, Dind) !in bad ==> forall i: nat | i < ENTRIES :: MidFreed(s, n, bad, mids, i)
    ensures forall p | IsPlace(p) && (p.Dind? || p.Mid? || p.Leaf?) && At(s, n, p) != 0 && Reached(s, n, p, bad) ::
            p in now
  {
    forall p | IsPlace(p) && (p.Dind? || p.Mid? || p.Leaf?) && At(s, n, p) != 0 && Reached(s, n, p, bad)
      ensures p in now
    {
      if !p.Dind? {
        assert Reached(s, n, Mid(p.i), bad) && At(s, n, Dind) !in bad;
        assert MidFreed(s, n, bad, mids, p.i);
        if p.Leaf? && At(s, n, Mid(p.i)) == 0 { HoleBelow(s, n, p); }
      }
    }
  }

  lemma ProgressBegins(s: Fs, n: nat, busy: set<nat>)
    requires Ok(s) && n < |s.inodes|
    ensures Progress(s, s, n, busy, {})
  {}

  lemma IndReached(s: Fs, n: nat, bad: set<nat>)
    requires Ok(s)
    ensures Shape(s) && Reached(s, n, Ind, bad)
    ensures forall p | IsPlace(p) && p.Ent? :: Reached(s, n, p, bad) <==> At(s, n, Ind) !in bad
    ensures forall i: nat | i < NDIRECT :: Reached(s, n, Zone(i), bad)
  {}

  /** Together the three parts of truncate get to every block that can be got to. */
  lemma TruncateCovered(s: Fs, n: nat, bad: set<nat>, done: set<Place>, now: set<Place>, all: set<Place>)
    requires Ok(s) && done <= now <= all
    requires forall p | p in done :: p.Zone? && IsPlace(p)
    requires forall i: nat | i < NDIRECT && At(s, n, Zone(i)) != 0 :: Zone(i) in done
    requires forall p :: p in now ==>
               p in done || p == Ind || (IsPlace(p) && !InInode(p) && Parent(p) == Ind && At(s, n, Ind) !in bad)
    requires At(s, n, Ind) != 0 ==> Ind in now
    requires At(s, n, Ind) != 0 && At(s, n, Ind) !in bad ==>
               forall j: nat | j < ENTRIES && At(s, n, Child(Ind, j)) != 0 :: Child(Ind, j) in now
    requires forall p | p in all && p !in now :: (p.Dind? || p.Mid? || p.Leaf?) && IsPlace(p) && Reached(s, n, p, bad)
    requires forall p | IsPlace(p) && (p.Dind? || p.Mid? || p.Leaf?) && At(s, n, p) != 0 && Reached(s, n, p, bad) ::
             p in all
    ensures forall p | p in all :: IsPlace(p) && Reached(s, n, p, bad)
    ensures forall p | IsPlace(p) && Reached(s, n, p, bad) && At(s, n, p) != 0 :: p in all
  {
    IndReached(s, n, bad);
    forall p | IsPlace(p) && Reached(s, n, p, bad) && At(s, n, p) != 0 ensures p in all {
      match p
      case Zone(i) =>
      case Ind =>
      case Ent(i) =>
        if At(s, n, Ind) == 0 { HoleBelow(s, n, p); }
        assert Child(Ind, i) == p;
      case Dind =>
      case Mid(_) =>
      case Leaf(_, _) =>
    }
  }

  lemma TruncateEnds(s: Fs, t: Fs, u: Fs, n: nat, bad: set<nat>, busy: set<nat>, all: set<Place>)
    requires Progress(s, t, n, busy, all) && u == Fs(t.blocks, t.bits, t.first, t.nzones, u.inodes)
    requires |u.inodes| == |s.inodes| && (forall m | 0 <= m < |s.inodes| && m != n :: u.inodes[m] == s.inodes[m])
    requires |u.inodes[n].zone| == 9 && (forall i | 0 <= i < 9 :: u.inodes[n].zone[i] == 0) && u.inodes[n].size == 0
    requires u.inodes[n].kind == s.inodes[n].kind
    requires forall p | p in all :: IsPlace(p) && Reached(s, n, p, bad)
    requires forall p | IsPlace(p) && Reached(s, n, p, bad) && At(s, n, p) != 0 :: p in all
    ensures Ok(u) && Truncated(s, u, n, bad, busy)
  {
    assert u.inodes[n].zone == seq(9, _ => 0);
    assert u.inodes == s.inodes[n := Inode(seq(9, _ => 0), 0, s.inodes[n].kind)];
    ProgressElsewhere(s, t, u, n, busy, all);
    ProgressDone(s, u, n, bad, busy, all);
    TruncateKeeps(s, u, n, bad, busy);
  }

  /** No data block is free. */
  ghost predicate Full(s: Fs)
    requires Shape(s)
  {
    forall b: nat | InDataZone(s, b) :: Used(s, b)
  }

  /** Nothing but place p of file n is different. */
  ghost predicate OnlyAt(s: Fs, t: Fs, n: nat, p: Place)
    requires Shape(s) && Shape(t)
  {
    forall m: nat, q | IsPlace(q) && (m != n || q != p) :: At(t, m, q) == At(s, m, q)
  }

  /** Block l of file n may have appeared; what could be read still can, and who held taken blocks still does. */
  ghost predicate Steady(s: Fs, t: Fs, badWas: set<nat>, bad: set<nat>, busy: set<nat>, n: nat, l: nat) {
    && Grew(s, t, n, l) && bad <= badWas && StillReadable(s, t, badWas, bad)
    && (HeldTaken(s, busy) ==> HeldTaken(t, busy)) && (HasTree(s, n) ==> HasTree(t, n))
  }

  lemma SteadyNothing(s: Fs, bad: set<nat>, busy: set<nat>, n: nat, l: nat)
    requires Ok(s)
    ensures Steady(s, s, bad, bad, busy, n, l)
  {
    GrewNothing(s, n, l);
  }

  lemma SteadyFacts(s: Fs, t: Fs, badWas: set<nat>, bad: set<nat>, busy: set<nat>, n: nat, l: nat)
    requires Steady(s, t, badWas, bad, busy, n, l)
    ensures Shape(s) && Shape(t) && bad <= badWas && (HeldTaken(s, busy) ==> HeldTaken(t, busy))
            && (HasTree(s, n) ==> HasTree(t, n))
  {}

  lemma SteadyThen(s: Fs, t: Fs, u: Fs, was: set<nat>, mid: set<nat>, bad: set<nat>, busy: set<nat>, n: nat, l: nat)
    requires Steady(s, t, was, mid, busy, n, l) && Steady(t, u, mid, bad, busy, n, l)
    ensures Steady(s, u, was, bad, busy, n, l) && Shape(s) && Shape(u) && (HeldTaken(s, busy) ==> HeldTaken(u, busy))
    ensures HasTree(s, n) ==> HasTree(u, n)
  {
    GrewThen(s, t, u, n, l);
    hide Grew, Readable;
  }

  lemma GrewSteady(s: Fs, badWas: set<nat>, bad: set<nat>, busy: set<nat>, n: nat, p: Place, b: nat, l: nat)
    requires CanGrow(s, n, p, b) && l < MAXBLOCKS && (IsData(p) ==> p == PlaceOf(l)) && bad == badWas - {b}
    ensures var t := Grow(s, n, p, b);
            Steady(s, t, badWas, bad, busy, n, l) && OnlyAt(s, t, n, p) && At(t, n, p) == b
  {
    var t := Grow(s, n, p, b);
    GrewOne(s, n, p, b, l);
    GrownReadable(s, t, badWas, bad, n, p, b);
    hide Grow, Readable, At;
  }

  /** What _bmap returns and leaves behind. */
  ghost predicate MapResult(s: Fs, t: Fs, badWas: set<nat>, bad: set<nat>, busy: set<nat>, n: nat, l: nat,
                            create: bool, r: nat) {
    && Steady(s, t, badWas, bad, busy, n, l) && l < MAXBLOCKS
    && (!create ==> t == s && bad == badWas)
    && (r != 0 ==> r == Bmap(t, n, l) && Reached(t, n, PlaceOf(l), bad))
    && (r == 0 ==> Bmap(t, n, l) == Bmap(s, n, l))
    && (r == 0 && Reached(t, n, PlaceOf(l), bad) ==> Bmap(t, n, l) == 0 && (create ==> Full(t)))
    && (r != 0 && Bmap(s, n, l) == 0 ==> r !in bad)
  }

  /** r is the block number that the zones of inode n and the bytes of its index blocks hold for block l, 0 when
      there is none or an index block cannot be read. */
  ghost predicate LookedUp(s: Fs, bad: set<nat>, n: nat, l: nat, r: nat) {
    && Shape(s) && HasTree(s, n)
    && (l < 7 ==> r == s.inodes[n].zone[l])
    && (7 <= l < 519 ==>
          var h, j := s.inodes[n].zone[7], l - 7;
          r == if s.first <= h < s.nzones && h !in bad then
                 s.blocks[h][2 * j] as nat + 256 * s.blocks[h][2 * j + 1] as nat
               else 0)
    && (519 <= l < MAXBLOCKS ==>
          var h, i, j := s.inodes[n].zone[8], (l - 519) / 512, (l - 519) % 512;
          var m := if s.first <= h < s.nzones && h !in bad then
                     s.blocks[h][2 * i] as nat + 256 * s.blocks[h][2 * i + 1] as nat
                   else 0;
          r == if s.first <= m < s.nzones && m !in bad then
                 s.blocks[m][2 * j] as nat + 256 * s.blocks[m][2 * j + 1] as nat
               else 0)
  }

  lemma LookUp(s: Fs, bad: set<nat>, busy: set<nat>, n: nat, l: nat, r: nat)
    requires HasTree(s, n) && MapResult(s, s, bad, bad, busy, n, l, false, r)
    ensures LookedUp(s, bad, n, l, r)
  {
    SteadyOk(s, s, bad, bad, busy, n, l);
    Layout(s, n, l);
    hide Steady, Full, PointersUsed, PlacesDistinct, BitmapOk;
    if 7 <= l < 519 {
      assert PlaceOf(l) == Ent(l - 7) && At(s, n, Ind) == s.inodes[n].zone[7];
      assert Reached(s, n, Ent(l - 7), bad) <==> s.inodes[n].zone[7] !in bad;
    }
    if l >= 519 {
      var i, j := (l - 519) / 512, (l - 519) % 512;
      LeafReached(s, n, i, j, bad);
      assert PlaceOf(l) == Leaf(i, j);
      var h := At(s, n, Dind);
      assert h == s.inodes[n].zone[8];
      assert At(s, n, Mid(i)) == if InDataZone(s, h) then Index(s.blocks[h], i) else 0;
    }
  }

  /** What IndexBlock returns and leaves behind. */
  ghost predicate IndexResult(s: Fs, t: Fs, badWas: set<nat>, bad: set<nat>, busy: set<nat>, n: nat, l: nat, p: Place,
                              create: bool, h: nat)
    requires IsPlace(p)
  {
    && Steady(s, t, badWas, bad, busy, n, l) && OnlyAt(s, t, n, p) && h == At(t, n, p)
    && (!create || At(s, n, p) != 0 || h == 0 ==> t == s && bad == badWas)
    && (h == 0 && create ==> Full(t))
  }

  /** What EntryOf returns and leaves behind; h is the index block. */
  ghost predicate EntryResult(s: Fs, t: Fs, badWas: set<nat>, bad: set<nat>, busy: set<nat>, n: nat, l: nat, h: nat,
                              p: Place, create: bool, r: nat)
    requires IsPlace(p)
  {
    && Steady(s, t, badWas, bad, busy, n, l) && OnlyAt(s, t, n, p)
    && (!create || r == 0 || At(s, n, p) != 0 ==> t == s && bad == badWas)
    && (r != 0 ==> r == At(t, n, p) && h !in bad)
    && (r == 0 && h !in badWas ==> At(t, n, p) == 0 && (create ==> Full(t)))
    && (r != 0 && At(s, n, p) == 0 ==> r !in bad)
  }

  lemma SingleEmpty(s: Fs, t: Fs, was: set<nat>, bad: set<nat>, busy: set<nat>, n: nat, k: nat, create: bool)
    requires k < ENTRIES && IndexResult(s, t, was, bad, busy, n, NDIRECT + k, Ind, create, 0)
    ensures MapResult(s, t, was, bad, busy, n, NDIRECT + k, create, 0)
  {
    HoleBelow(s, n, Ent(k));
  }

  lemma SingleMapped(s: Fs, t: Fs, u: Fs, was: set<nat>, mid: set<nat>, bad: set<nat>, busy: set<nat>, n: nat, k: nat,
                     create: bool, h: nat, r: nat)
    requires k < ENTRIES && h != 0 && IndexResult(s, t, was, mid, busy, n, NDIRECT + k, Ind, create, h)
    requires EntryResult(t, u, mid, bad, busy, n, NDIRECT + k, h, Ent(k), create, r)
    ensures MapResult(s, u, was, bad, busy, n, NDIRECT + k, create, r) && (HeldTaken(s, busy) ==> HeldTaken(u, busy))
  {
    hide Ok, Used, Full;
    SteadyThen(s, t, u, was, mid, bad, busy, n, NDIRECT + k);
    hide Steady;
    SteadyOk(s, u, was, bad, busy, n, NDIRECT + k);
    if r != 0 { ReachedBelow(u, n, Ent(k), bad); }
  }

  lemma SteadyOk(s: Fs, t: Fs, badWas: set<nat>, bad: set<nat>, busy: set<nat>, n: nat, l: nat)
    requires Steady(s, t, badWas, bad, busy, n, l)
    ensures Ok(s) && Ok(t) && bad <= badWas
  {}

  lemma DoubleEmpty(s: Fs, t: Fs, was: set<nat>, bad: set<nat>, busy: set<nat>, n: nat, k: nat, create: bool)
    requires k < ENTRIES * ENTRIES && IndexResult(s, t, was, bad, busy, n, NDIRECT + ENTRIES + k, Dind, create, 0)
    ensures MapResult(s, t, was, bad, busy, n, NDIRECT + ENTRIES + k, create, 0)
  {
    HoleBelow(s, n, Mid(k / ENTRIES));
    HoleBelow(s, n, Leaf(k / ENTRIES, k % ENTRIES));
  }

  lemma DoubleStops(s: Fs, t: Fs, u: Fs, was: set<nat>, mid: set<nat>, bad: set<nat>, busy: set<nat>, n: nat, k: nat,
                    create: bool, h: nat)
    requires k < ENTRIES * ENTRIES && h != 0 && IndexResult(s, t, was, mid, busy, n, NDIRECT + ENTRIES + k, Dind,
             create, h)
    requires EntryResult(t, u, mid, bad, busy, n, NDIRECT + ENTRIES + k, h, Mid(k / ENTRIES), create, 0)
    ensures MapResult(s, u, was, bad, busy, n, NDIRECT + ENTRIES + k, create, 0)
  {
    var p := Leaf(k / ENTRIES, k % ENTRIES);
    hide Ok, Used, Full;
    SteadyThen(s, t, u, was, mid, bad, busy, n, NDIRECT + ENTRIES + k);
    hide Steady;
    SteadyOk(s, u, was, bad, busy, n, NDIRECT + ENTRIES + k);
    if h in bad { assert !Reached(u, n, Parent(p), bad); } else { HoleBelow(u, n, p); }
  }

  lemma DoubleMapped(s: Fs, t: Fs, u: Fs, v: Fs, was: set<nat>, mid: set<nat>, low: set<nat>, bad: set<nat>,
                     busy: set<nat>,
                     n: nat, k: nat, create: bool, h: nat, i: nat, r: nat)
    requires k < ENTRIES * ENTRIES && h != 0 && i != 0
             && IndexResult(s, t, was, mid, busy, n, NDIRECT + ENTRIES + k, Dind, create, h)
    requires EntryResult(t, u, mid, low, busy, n, NDIRECT + ENTRIES + k, h, Mid(k / ENTRIES), create, i)
    requires EntryResult(u, v, low, bad, busy, n, NDIRECT + ENTRIES + k, i, Leaf(k / ENTRIES, k % ENTRIES), create, r)
    ensures MapResult(s, v, was, bad, busy, n, NDIRECT + ENTRIES + k, create, r)
  {
    var l, m, p := NDIRECT + ENTRIES + k, Mid(k / ENTRIES), Leaf(k / ENTRIES, k % ENTRIES);
    SteadyThen(s, t, u, was, mid, low, busy, n, l);
    SteadyThen(s, u, v, was, low, bad, busy, n, l);
    SteadyOk(u, v, low, bad, busy, n, l);
    SteadyOk(s, t, was, mid, busy, n, l);
    LeafReached(v, n, k / ENTRIES, k % ENTRIES, bad);
    assert PlaceOf(l) == p;
    hide Steady, Ok, Shape, Reached, Full, At;
    assert At(v, n, Dind) == At(u, n, Dind) == h && At(v, n, m) == i;
    assert At(s, n, p) == At(t, n, p) == At(u, n, p);
  }

  lemma LeafReached(s: Fs, n: nat, i: nat, j: nat, bad: set<nat>)
    requires Shape(s) && i < ENTRIES && j < ENTRIES
    ensures Reached(s, n, Leaf(i, j), bad) <==> At(s, n, Dind) !in bad && At(s, n, Mid(i)) !in bad
  {
    assert Reached(s, n, Mid(i), bad) <==> At(s, n, Dind) !in bad;
  }
}
