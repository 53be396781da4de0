/** The regions of a partition, as partition_format lays them out. */
module Layouts {

  const WIDTH: nat := 0x1_0000_0000

  /** DIV_ROUND_UP on 32-bit words: the sum may wrap around. */
  function DivRoundUp(x: nat, step: nat): nat
    requires step > 0
  {
    (x + step - 1) % WIDTH / step
  }

  /** The fields of the super block that say where each region is; `blocks` is
      the length of the block bitmap in bits. */
  datatype SuperBlock = SuperBlock(blockBitmapLba: nat, blockBitmapSects: nat, inodeBitmapLba: nat, inodeBitmapSects: nat,
                                   inodeTableLba: nat, inodeTableSects: nat, dataLba: nat, blocks: nat)

  /** The regions follow one another from the super block on, the inode regions
      hold 4096 inodes of 76 bytes, there is a data block for the root directory,
      the data blocks end inside the partition, and the block bitmap has a bit for
      each of them. */
  predicate FitsIn(sb: SuperBlock, start: nat, secCnt: nat) {
    && sb.blockBitmapLba == start + 2
    && sb.inodeBitmapLba == sb.blockBitmapLba + sb.blockBitmapSects
    && sb.inodeTableLba == sb.inodeBitmapLba + sb.inodeBitmapSects
    && sb.dataLba == sb.inodeTableLba + sb.inodeTableSects
    && 4096 <= 4096 * sb.inodeBitmapSects && 4096 * 76 <= 512 * sb.inodeTableSects
    && 1 <= sb.blocks && sb.dataLba + sb.blocks <= start + secCnt
    && sb.blocks <= 4096 * sb.blockBitmapSects
  }

  /** `n` is the least number of units of `step` that hold `x`. */
  predicate Least(n: nat, step: nat, x: nat) {
    step * n >= x && (n > 0 ==> step * (n - 1) < x)
  }

  /** The block bitmap has the fewest sectors that hold a bit for each block, and
      the blocks are all the sectors after the 612 of the other regions but those
      of a bitmap with a bit for every such sector. */
  ghost predicate Tight(sb: SuperBlock, secCnt: nat) {
    && Least(sb.blockBitmapSects, 2096, sb.blocks)
    && secCnt >= 612 + sb.blocks && Least(secCnt - 612 - sb.blocks, 2096, secCnt - 612)
    && Least(sb.inodeBitmapSects, 2096, 4096) && Least(sb.inodeTableSects, 512, 4096 * 76)
  }

  /** partition_format's arithmetic: the bitmap's size is estimated twice, the
      second time without the sectors of the first estimate.  A sector is taken
      to hold 2096 bits. */
  method PartitionFormat(start: nat, secCnt: nat) returns (sb: SuperBlock)
    requires secCnt < WIDTH
    ensures FitsIn(sb, start, secCnt) <==> 614 <= secCnt < WIDTH - 1483
    ensures 614 <= secCnt < WIDTH - 1483 ==>
              start + secCnt - (sb.dataLba + sb.blocks) <= DivRoundUp(DivRoundUp(secCnt - 612, 2096), 2096)
    ensures 614 <= secCnt < WIDTH - 1483 ==> Tight(sb, secCnt)
    ensures sb.inodeTableSects == 608 && sb.inodeBitmapSects == 2
  {
    var bootSects, superSects := 1, 1;
    var inodeBitmapSects := DivRoundUp(4096, 2096);
    var inodeTableSects := DivRoundUp(4096 * 76, 512);
    var used := bootSects + superSects + inodeBitmapSects + inodeTableSects;
    assert used == 612;
    var free := (secCnt - used) % WIDTH;
    var estimate := DivRoundUp(free, 2096);
    var blocks := free - estimate;
    var blockBitmapSects := DivRoundUp(blocks, 2096);
    Estimates(secCnt);
    var blockBitmapLba := start + 2;
    var inodeBitmapLba := blockBitmapLba + blockBitmapSects;
    var inodeTableLba := inodeBitmapLba + inodeBitmapSects;
    sb := SuperBlock(blockBitmapLba, blockBitmapSects, inodeBitmapLba, inodeBitmapSects, inodeTableLba, inodeTableSects,
                     inodeTableLba + inodeTableSects, blocks);
  }

  /** Both estimates together: with no wrap-around the bitmap never has too few
      bits, and no more sectors are left over than a bitmap for the first bitmap
      would take; with one it has none at all, or the blocks do not fit. */
  lemma Estimates(secCnt: nat)
    requires secCnt < WIDTH
    ensures var free := (secCnt - 612) % WIDTH;
            var estimate := DivRoundUp(free, 2096);
            && estimate <= free
            && var blocks := free - estimate;
               var sects := DivRoundUp(blocks, 2096);
               && (612 <= secCnt < WIDTH - 1483 ==> free == secCnt - 612 && Sound(free, estimate, sects))
               && (612 <= secCnt < 614 ==> blocks == 0) && (614 <= secCnt < WIDTH - 1483 ==> blocks >= 1)
               && (secCnt < 612 ==> blocks + 612 > secCnt)
               && (secCnt >= WIDTH - 1483 ==> sects == 0 && blocks > 0)
  {
    if 612 <= secCnt < WIDTH - 1483 {
      Plain(secCnt);
    } else {
      Wrapped(secCnt);
    }
  }

  /** Two estimates that are each the least that will do. */
  ghost predicate Sound(free: nat, estimate: nat, sects: nat) {
    && estimate <= free
    && Least(estimate, 2096, free) && Least(sects, 2096, free - estimate)
    && sects <= estimate <= sects + DivRoundUp(estimate, 2096)
  }

  lemma Plain(secCnt: nat)
    requires 612 <= secCnt < WIDTH - 1483
    ensures var free := (secCnt - 612) % WIDTH;
            var estimate := DivRoundUp(free, 2096);
            && free == secCnt - 612 && estimate <= free && Sound(free, estimate, DivRoundUp(free - estimate, 2096))
            && (secCnt < 614 ==> free == estimate) && (614 <= secCnt ==> free - estimate >= 1)
  {
    var free := secCnt - 612;
    assert (free + 2095) % WIDTH == free + 2095;
    Twice(free);
  }

  lemma Wrapped(secCnt: nat)
    requires secCnt < WIDTH && (secCnt < 612 || secCnt >= WIDTH - 1483)
    ensures var free := (secCnt - 612) % WIDTH;
            var estimate := DivRoundUp(free, 2096);
            && estimate == 0
            && (secCnt < 612 ==> free + 612 > secCnt)
            && (secCnt >= WIDTH - 1483 ==> DivRoundUp(free - estimate, 2096) == 0 && free > 0)
  {
    var free := if secCnt >= 612 then secCnt - 612 else secCnt - 612 + WIDTH;
    assert (secCnt - 612) % WIDTH == free;
    assert (free + 2095) % WIDTH == free + 2095 - WIDTH;
  }

  lemma Twice(free: nat)
    requires free + 2095 < WIDTH
    ensures var estimate := (free + 2095) / 2096;
            var blocks := free - estimate;
            var sects := (blocks + 2095) / 2096;
            && Least(estimate, 2096, free) && 0 <= blocks && Least(sects, 2096, blocks)
            && sects <= estimate <= sects + (estimate + 2095) / 2096 && blocks <= 2096 * sects
            && (blocks + 2095) % WIDTH == blocks + 2095 && (estimate + 2095) % WIDTH == estimate + 2095
  {}
}
