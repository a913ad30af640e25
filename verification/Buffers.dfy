/** What fs/buffer.c and the block drivers share: the buffer heads of include/linux/fs.h. */
module Buffers {
  const DEVICES := 0x1_0000          // b_dev is an unsigned short

  datatype Buffer = Buffer(dev: nat, block: nat, count: nat, lock: bool, dirt: bool, uptodate: bool)

  /** A buffer of no device: nothing is in it. */
  const EMPTY := Buffer(0, 0, 0, false, false, false)

  predicate Is(x: Buffer, dev: nat, block: nat) { x.dev == dev && x.block == block }

  /** BADNESS */
  function Badness(x: Buffer): nat { (if x.dirt then 2 else 0) + (if x.lock then 1 else 0) }

  /** Clean is better than dirty, locked or not; between two alike, unlocked is better than locked. */
  predicate NoWorse(x: Buffer, y: Buffer) { (x.dirt ==> y.dirt) && (x.dirt == y.dirt && x.lock ==> y.lock) }

  lemma BadnessOrders(x: Buffer, y: Buffer)
    ensures Badness(x) <= Badness(y) <==> NoWorse(x, y)
    ensures Badness(x) == 0 <==> !x.dirt && !x.lock
  {}

  predicate OneBufferPerBlock(bufs: seq<Buffer>) {
    forall a, b | 0 <= a < |bufs| && 0 <= b < |bufs| && a != b && bufs[a].dev != 0 ::
        !Is(bufs[b], bufs[a].dev, bufs[a].block)
  }
}
