/** The file operations as the kernel runs them, on a partition whose tables
    they update in place. */
module FileSystems {
  import opened Sectors
  import opened BlockMaps
  import opened Volumes
  import opened FileWrites
  import opened FileCuts
  import opened FileLives
  import B = Bitmaps

  class FileSystem {
    const base: nat
    var disk: seq<Sector>
    var bits: seq<bool>
    var saved: seq<bool>
    var files: map<Ino, Inode>
    ghost var own: map<nat, (Ino, nat)>
    ghost var kept: set<nat>
    ghost var maps: map<Ino, FileMap>

    ghost function State(): Volume
      reads this
    {
      Volume(base, disk, bits, saved, files, own, kept, maps)
    }

    // ---------- Blocks ----------

    /** First fit, for place `k` of file `i`. */
    method BlockBitmapAlloc(ghost i: Ino, ghost k: nat) returns (b: Word)
      requires Claimable(State(), i, k)
      modifies `bits, `own, `maps
      ensures b == FreeBlock(old(State())) && Claimed(old(State()), State(), i, k, b)
    {
      ClaimStep(State(), i, k);
      B.FullIffNoneFree(bits);
      b := base + B.FirstFree(bits);
      bits := bits[b - base := true];
      own := own[b := (i, k)];
      maps := maps[i := SetPlace(maps[i], k, b)];
    }

    /** bitmap_sync: the sector of the bitmap with the bit, or what there is of the
        last one, is copied from memory. */
    method BitmapSync(b: Word)
      requires |saved| == |bits| && base <= b < base + |bits|
      modifies `saved
      ensures State() == Sync(old(State()), b)
    {
      saved := WithSector(saved, bits, b - base);
    }

    static method WithSector(saved: seq<bool>, bits: seq<bool>, at: nat) returns (s: seq<bool>)
      requires |saved| == |bits| && at < |bits|
      ensures s == Synced(saved, bits, at)
    {
      var from := at / 4096 * 4096;
      var to := if from + 4096 <= |bits| then from + 4096 else |bits|;
      SyncedSector(saved, bits, at);
      s := saved[..from] + bits[from..to] + saved[to..];
    }

    method IdeWrite(b: Word, s: Sector)
      requires b < |disk|
      modifies `disk
      ensures State() == Write(old(State()), b, s)
    {
      disk := disk[b := s];
    }

    method SetInodeSector(i: Ino, k: nat, b: Word)
      requires i in files && k < |files[i].sectors|
      modifies `files
      ensures State() == SetSector(old(State()), i, k, b)
    {
      files := files[i := files[i].(sectors := files[i].sectors[k := b])];
    }

    /** The 140 sector numbers, and the 0 after them. */
    method LoadBlocks(i: Ino) returns (all: array<Word>, secondary: Word)
      requires Valid(State()) && i in files
      ensures fresh(all) && all[..] == maps[i].all && secondary == maps[i].index
    {
      Loaded(disk, files[i].sectors, maps[i]);
      all, secondary := LoadSectors(files[i].sectors);
    }

    method LoadSectors(sectors: seq<Word>) returns (all: array<Word>, secondary: Word)
      requires |sectors| == 13 && sectors[12] < |disk|
      ensures fresh(all) && all[..] == AllBlocks(disk, sectors) && secondary == sectors[12]
    {
      all := new Word[141](k => 0);
      secondary := 0;
      for k := 0 to 13
        invariant forall x :: 0 <= x < k && x < 12 ==> all[x] == sectors[x]
        invariant k < 13 ==> forall x :: k <= x < 141 ==> all[x] == 0
        invariant k < 13 ==> secondary == 0
        invariant k == 13 ==> secondary == sectors[12]
        invariant k == 13 ==> forall x :: 12 <= x < 141 ==> all[x] == AllBlocks(disk, sectors)[x]
      {
        all[k] := sectors[k];
        if k == 12 && all[k] != 0 {
          secondary := all[k];
          var words := Words(disk[all[k]]);
          forall x | 12 <= x < 140 { all[x] := words[x - 12]; }
        }
      }
      assert all[..] == AllBlocks(disk, sectors);
    }

    /** A block below 12: its number goes into the inode. */
    method MapDirect(i: Ino, all: array<Word>, k: nat)
      requires InFlight(State(), i, k, false) && k < 12 && B.CountFree(bits) > 0
      requires all[..] == maps[i].all
      modifies `bits, `own, `maps, `saved, `disk, `files, all
      ensures InFlight(State(), i, k + 1, false) && Extended(old(State()), State(), i, 1)
      ensures Img(State(), i) == old(Img(State(), i)) && all[..] == maps[i].all
    {
      assert Place(maps[i], k) == 0;
      var b := BlockBitmapAlloc(i, k);
      ghost var u := State();
      DirectKeeps(old(State()), u, i, k, b);
      all[k] := b;
      SetInodeSector(i, k, b);
      IdeWrite(b, ZERO);
      BitmapSync(b);
      assert State() == Direct(u, i, k, b);
    }

    /** A block above 12: its number goes into the index sector. */
    method MapIndirect(i: Ino, all: array<Word>, k: nat, secondary: Word, ghost stale: bool)
      requires InFlight(State(), i, k, stale) && 12 < k <= 140 && B.CountFree(bits) > 0
      requires all[..] == maps[i].all && secondary == maps[i].index
      modifies `bits, `own, `maps, `saved, `disk, all
      ensures InFlight(State(), i, k + 1, false) && Extended(old(State()), State(), i, 1)
      ensures Img(State(), i) == old(Img(State(), i)) && all[..] == maps[i].all
    {
      assert Place(maps[i], k) == 0;
      var b := BlockBitmapAlloc(i, k);
      ghost var u := State();
      IndirectKeeps(old(State()), u, i, k, stale, b);
      all[k] := b;
      assert all[12..140] == all[..][12..140];
      IdeWrite(secondary, Packed(all[12..140]));
      IdeWrite(b, ZERO);
      BitmapSync(b);
      assert State() == Indirect(u, i, b, secondary);
    }

    /** Two calls of block_bitmap_alloc; `between` is the state between them. */
    method AllocTwice(ghost i: Ino, ghost p: nat, ghost q: nat) returns (block: Word, second: Word, ghost between: Volume)
      requires Claimable(State(), i, p) && B.CountFree(bits) > 1 && q <= INDEX && q != p && Place(maps[i], q) == 0
      modifies `bits, `own, `maps
      ensures Claimed(old(State()), between, i, p, block) && Claimed(between, State(), i, q, second)
    {
      block := BlockBitmapAlloc(i, p);
      between := State();
      assert Place(maps[i], q) == 0;
      second := BlockBitmapAlloc(i, q);
    }

    /** One block for the file and one for its index sector, in some order. */
    method AllocBoth(ghost i: Ino, ghost p: nat, ghost q: nat) returns (block: Word, second: Word)
      requires Tidy(State()) && Claimable(State(), i, 12) && Claimable(State(), i, INDEX) && B.CountFree(bits) > 1
      requires (p == 12 && q == INDEX) || (p == INDEX && q == 12)
      modifies `bits, `own, `maps
      ensures TwoInOrder(old(State()), State(), i, p == 12, block, second)
    {
      ghost var between;
      block, second, between := AllocTwice(i, p, q);
      ClaimedTwice(old(State()), between, State(), i, p, q, block, second);
    }

    /** The buffer's second part, empty so far, starts again with the new block;
        the other one becomes the index sector. */
    method EnterFirst(all: array<Word>, swapped: bool, block: Word, second: Word) returns (secondary: Word)
      requires all.Length == 141 && forall x :: 12 <= x < 140 ==> all[x] == 0
      modifies all
      ensures secondary == if swapped then block else second
      ensures all[..] == old(all[..])[12 := if swapped then second else block]
    {
      forall x | 12 <= x < 140 { all[x] := 0; }
      if swapped {
        secondary := block;
        all[12] := second;
      } else {
        secondary := second;
        all[12] := block;
      }
    }

    /** The writes of the case of block 12. */
    method WriteFirst(i: Ino, table: seq<Word>, block: Word, second: Word, secondary: Word)
      requires i in maps && IsMap(maps[i]) && base <= block < |disk| && base <= second < |disk|
      requires i in files && |files[i].sectors| == 13 && |saved| == |bits| && |disk| == base + |bits|
      requires table == maps[i].all[12..140] && secondary == maps[i].index
      modifies `saved, `disk, `files
      ensures State() == First(old(State()), i, block, second)
    {
      IdeWrite(second, Packed(table));
      SetInodeSector(i, 12, secondary);
      IdeWrite(block, ZERO);
      BitmapSync(block);
      BitmapSync(second);
    }

    /** Block 12 as the loop over the blocks before `offset` has it, and the case
        after that loop: the first block taken is the file's, the second its
        index sector. */
    method MapFirst(i: Ino, all: array<Word>) returns (secondary: Word)
      requires InFlight(State(), i, 12, false) && B.CountFree(bits) > 1
      requires all[..] == maps[i].all
      modifies `bits, `own, `maps, `saved, `disk, `files, all
      ensures InFlight(State(), i, 13, false) && Extended(old(State()), State(), i, 2)
      ensures Img(State(), i) == old(Img(State(), i)) && all[..] == maps[i].all && secondary == maps[i].index
    {
      RoomForTwo(State(), i);
      var block, second := AllocBoth(i, 12, INDEX);
      ghost var s := State();
      FirstKeeps(old(State()), s, i, block, second);
      secondary := EnterFirst(all, false, block, second);
      assert all[..] == maps[i].all;
      assert all[12..140] == all[..][12..140];
      WriteFirst(i, all[12..140], block, second, secondary);
    }

    /** Block 12 in the loop that writes the blocks after the first one: the two
        blocks are swapped, but not what is written into them. */
    method MapFirstSwapped(i: Ino, all: array<Word>) returns (secondary: Word)
      requires InFlight(State(), i, 12, false) && B.CountFree(bits) > 1
      requires all[..] == maps[i].all
      modifies `bits, `own, `maps, `saved, `disk, `files, all
      ensures EnteredSwapped(old(State()), State(), i)
      ensures i in maps && all[..] == maps[i].all && secondary == maps[i].index
    {
      RoomForTwo(State(), i);
      var block, second := AllocBoth(i, INDEX, 12);
      ghost var s := State();
      SwappedKeeps(old(State()), s, i, block, second);
      secondary := EnterFirst(all, true, block, second);
      assert all[..] == maps[i].all;
      assert all[12..140] == all[..][12..140];
      WriteFirst(i, all[12..140], block, second, secondary);
    }

    /** A missing block is taken, cleared and entered in the map. */
    method MapBlock(i: Ino, all: array<Word>, k: nat, secondary: Word, swapped: bool, ghost stale: bool)
      returns (second: Word)
      requires InFlight(State(), i, k, stale) && k <= 140 && B.CountFree(bits) >= Taken(k + 1) - Taken(k)
      requires all[..] == maps[i].all && secondary == maps[i].index
      modifies `bits, `own, `maps, `saved, `disk, `files, all
      ensures InFlight(State(), i, k + 1, swapped && k == 12)
      ensures Extended(old(State()), State(), i, Taken(k + 1) - Taken(k))
      ensures !(swapped && k == 12) ==> Img(State(), i) == old(Img(State(), i))
      ensures forall x :: 0 <= x < 140 && x != 12 ==> Img(State(), i)[x] == old(Img(State(), i))[x]
      ensures all[..] == maps[i].all && second == maps[i].index
    {
      assert Place(maps[i], INDEX) == maps[i].index;
      if k < 12 {
        MapDirect(i, all, k);
        second := secondary;
      } else if k == 12 {
        if swapped {
          second := MapFirstSwapped(i, all);
        } else {
          second := MapFirst(i, all);
        }
      } else {
        MapIndirect(i, all, k, secondary, stale);
        second := secondary;
      }
    }

    /** Read a block into the buffer, copy bytes over it and write it back.  The
        entry after the last block is reached only with nothing to write. */
    method PutBlock(i: Ino, all: array<Word>, k: nat, at: nat, bytes: seq<Byte>, ghost n: nat, ghost stale: bool)
      requires InFlight(State(), i, n, stale) && k < n && at + |bytes| <= 512
      requires k < 140 || (k == 140 && bytes == [])
      requires all[..] == maps[i].all
      modifies `disk
      ensures InFlight(State(), i, n, stale) && Extended(old(State()), State(), i, 0)
      ensures k < 140 ==> BlockPut(old(State()), State(), i, n, stale, k, at, bytes)
      ensures k == 140 ==> State() == old(State())
      ensures all[..] == maps[i].all
    {
      ghost var v := State();
      if k < 140 {
        PutKeeps(State(), i, n, stale, k, at, bytes);
      }
      var buf := disk[all[k]];
      IdeWrite(all[k], Patch(buf, at, bytes));
      if k == 140 {
        assert Patch(buf, at, []) == buf;
        assert State() == v;
      }
    }

    /** Make sure that a block up to the one `offset` lies in is there. */
    method PassBlock(i: Ino, all: array<Word>, secondary: Word, passed: nat, ghost after: nat, ghost v0: Volume,
                     ghost last: nat)
      returns (second: Word)
      requires after == passed + 1 && InGap(v0, State(), i, passed) && passed <= 140 && passed < last
      requires Enough(v0, i, last)
      requires all[..] == maps[i].all && secondary == maps[i].index
      modifies `bits, `own, `maps, `saved, `disk, `files, all
      ensures InGap(v0, State(), i, after)
      ensures i in maps && all[..] == maps[i].all && second == maps[i].index
    {
      second := secondary;
      ghost var v := State();
      Missing(v0, v, i, passed, false);
      if all[passed] == 0 {
        RoomLeft(v0, v, i, passed, false, last);
        second := MapBlock(i, all, passed, second, false, false);
        PassMapped(v0, v, State(), i, passed, false, false);
      } else {
        PassThere(v0, v, i, passed);
      }
    }

    /** The blocks before `offset`. */
    method PassGap(i: Ino, all: array<Word>, secondary: Word, start: nat, ghost v0: Volume) returns (second: Word)
      requires InGap(v0, State(), i, 0) && start <= 140
      requires Enough(v0, i, start + 1)
      requires all[..] == maps[i].all && secondary == maps[i].index
      modifies `bits, `own, `maps, `saved, `disk, `files, all
      ensures InGap(v0, State(), i, start) && i in maps
      ensures all[..] == maps[i].all && second == maps[i].index
    {
      ghost var last := start + 1;
      var passed := 0;
      second := secondary;
      while passed < start
        invariant passed <= start && InGap(v0, State(), i, passed)
        invariant i in maps && all[..] == maps[i].all && second == maps[i].index
      {
        var after := passed + 1;
        second := PassBlock(i, all, second, passed, after, v0, last);
        passed := after;
      }
    }

    /** The block that `offset` lies in. */
    method WriteFirstBlock(i: Ino, all: array<Word>, secondary: Word, start: nat, ghost after: nat, at: nat,
                           data: seq<Byte>, ghost v0: Volume, ghost offset: nat)
      returns (second: Word, size: nat)
      requires after == start + 1 && InGap(v0, State(), i, start) && offset == 512 * start + at && at < 512
      requires offset + |data| <= 71680
      requires Enough(v0, i, after)
      requires all[..] == maps[i].all && secondary == maps[i].index
      modifies `bits, `own, `maps, `saved, `disk, `files, all
      ensures size == (if |data| >= 512 - at then 512 - at else |data|)
      ensures Begun(v0, State(), i, after, offset, data[..size])
      ensures i in maps && all[..] == maps[i].all && second == maps[i].index
    {
      second := PassBlock(i, all, secondary, start, after, v0, after);
      size := if |data| >= 512 - at then 512 - at else |data|;
      PutFirst(i, all, start, after, at, data, size, v0, offset);
    }

    method PutFirst(i: Ino, all: array<Word>, start: nat, ghost passed: nat, at: nat, data: seq<Byte>, size: nat,
                    ghost v0: Volume, ghost offset: nat)
      requires InGap(v0, State(), i, passed) && passed == start + 1 <= 141 && all[..] == maps[i].all
      requires offset == 512 * start + at && at + size <= 512 && size <= |data| && offset + |data| <= 71680
      modifies `disk
      ensures Begun(v0, State(), i, passed, offset, data[..size])
      ensures i in maps && all[..] == maps[i].all
    {
      ghost var u := State();
      PutBlock(i, all, start, at, data[0..size], Reach(Before(v0, i), passed), false);
      FirstPassed(v0, u, State(), i, start, offset, data, at, size);
    }

    /** The blocks after it. */
    method WriteRest(i: Ino, all: array<Word>, secondary: Word, start: nat, first: nat, data: seq<Byte>, written: nat,
                     ghost v0: Volume, ghost offset: nat, ghost last: nat)
      requires Progress(v0, State(), i, start, first, offset, data, written) && offset + |data| <= 71680
      requires last == Touched(offset, |data|) && (written == |data| ==> first == last)
      requires Enough(v0, i, last)
      requires all[..] == maps[i].all && secondary == maps[i].index
      modifies `bits, `own, `maps, `saved, `disk, `files, all
      ensures Progress(v0, State(), i, start, last, offset, data, |data|)
    {
      var done: nat, passed: nat, second := written, first, secondary;
      while done < |data|
        invariant done <= |data| && (done == |data| ==> passed == last)
        invariant Progress(v0, State(), i, start, passed, offset, data, done)
        invariant i in maps && all[..] == maps[i].all && second == maps[i].index
        decreases |data| - done
      {
        var after, next := passed + 1, done + Chunk(data, done);
        second := WriteNextBlock(i, all, second, start, passed, data, done, after, next, v0, offset, last);
        passed, done := after, next;
      }
    }

    /** The block with the next chunk. */
    method WriteNextBlock(i: Ino, all: array<Word>, secondary: Word, ghost start: nat, passed: nat, data: seq<Byte>,
                          done: nat, ghost after: nat, next: nat, ghost v0: Volume, ghost offset: nat, ghost last: nat)
      returns (second: Word)
      requires after == passed + 1 && done <= |data| && next == done + Chunk(data, done)
      requires Progress(v0, State(), i, start, passed, offset, data, done) && done < |data| && offset + |data| <= 71680
      requires last == Touched(offset, |data|) && Enough(v0, i, last)
      requires all[..] == maps[i].all && secondary == maps[i].index
      modifies `bits, `own, `maps, `saved, `disk, `files, all
      ensures done < next <= |data| && (next == |data| ==> after == last)
      ensures Progress(v0, State(), i, start, after, offset, data, next)
      ensures i in maps && all[..] == maps[i].all && second == maps[i].index
    {
      ghost var v := State();
      LastChunk(v0, v, i, start, passed, offset, data, done, after, next, last);
      second := ReachBlock(i, all, secondary, start, passed, v0, last);
      WriteChunk(i, all, start, passed, data, done, after, next, data[done..next], v0, v, offset);
    }

    method WriteChunk(i: Ino, all: array<Word>, ghost start: nat, passed: nat, ghost data: seq<Byte>, ghost done: nat,
                      ghost after: nat, ghost next: nat, chunk: seq<Byte>, ghost v0: Volume, ghost v: Volume, ghost offset: nat)
      requires Reached(v0, v, State(), i, start, passed, after, offset, data, done, next)
      requires next <= |data| && chunk == data[done..next] && i in v0.files
      requires i in maps && all[..] == maps[i].all
      modifies `disk
      ensures Progress(v0, State(), i, start, after, offset, data, next)
      ensures i in maps && all[..] == maps[i].all
    {
      ghost var u := State();
      ReachedBlock(v0, v, u, i, start, passed, after, offset, data, done, next);
      PutBlock(i, all, passed, 0, chunk, Reach(Before(v0, i), after), StaleAt(v0, i, start, after));
      Progresses(v0, v, u, State(), i, start, passed, after, offset, data, done, next, chunk);
    }

    /** Make sure the block is there; here the two blocks of the case of block 12
        are swapped. */
    method ReachBlock(i: Ino, all: array<Word>, secondary: Word, ghost start: nat, passed: nat, ghost v0: Volume,
                      ghost last: nat)
      returns (second: Word)
      requires start + 1 <= passed < 140 && passed < last && Running(v0, State(), i, passed, StaleAt(v0, i, start, passed))
      requires Enough(v0, i, last)
      requires all[..] == maps[i].all && secondary == maps[i].index
      modifies `bits, `own, `maps, `saved, `disk, `files, all
      ensures Running(v0, State(), i, passed + 1, StaleAt(v0, i, start, passed + 1))
      ensures forall x :: 0 <= x < 140 && x != 12 ==> Img(State(), i)[x] == old(Img(State(), i))[x]
      ensures !StaleAt(v0, i, start, passed + 1) ==> Img(State(), i) == old(Img(State(), i))
      ensures all[..] == maps[i].all && second == maps[i].index
    {
      second := secondary;
      ghost var v, stale := State(), StaleAt(v0, i, start, passed);
      Missing(v0, v, i, passed, stale);
      if all[passed] == 0 {
        RoomLeft(v0, v, i, passed, stale, last);
        second := MapBlock(i, all, passed, second, true, stale);
        PassMapped(v0, v, State(), i, passed, stale, StaleAt(v0, i, start, passed + 1));
      } else {
        PassThere(v0, v, i, passed);
      }
    }

    /** file_write, with the sum of offset and length below 2 to the 32nd and
        room for the blocks it needs. */
    method FileWrite(i: Ino, data: seq<Byte>, offset: nat) returns (r: int)
      requires Valid(State()) && i in files && offset + |data| < 0x1_0000_0000
      requires offset + |data| <= 71680 ==> B.CountFree(bits) >= Needed(files[i].size, offset, |data|)
      modifies `bits, `own, `maps, `saved, `disk, `files
      ensures WriteResult(old(State()), State(), i, offset, data, r)
    {
      if offset + |data| > 71680 {
        return -1;
      }
      ghost var v;
      r, v := WriteAndGrow(i, data, offset);
      WriteEnds(old(State()), v, i, offset, data, r);
    }

    /** The call for a length that fits; `v` is the state before the size is set. */
    method WriteAndGrow(i: Ino, data: seq<Byte>, offset: nat) returns (r: int, ghost v: Volume)
      requires Valid(State()) && i in files && offset + |data| <= 71680
      requires B.CountFree(bits) >= Needed(files[i].size, offset, |data|)
      modifies `bits, `own, `maps, `saved, `disk, `files
      ensures Progress(old(State()), v, i, offset / 512, Touched(offset, |data|), offset, data, |data|)
      ensures i in v.files && State() == Resized(v, i, After(old(files[i].size), offset, |data|))
      ensures r == |data| - offset % 512
    {
      WriteBlocks(i, data, offset);
      v := State();
      GrowSize(i, offset, |data|);
      InBlock(offset);
      r := 512 * (offset / 512) + |data| - offset;
    }

    method GrowSize(i: Ino, offset: nat, len: nat)
      requires i in files
      modifies `files
      ensures State() == Resized(old(State()), i, After(old(files[i].size), offset, len))
    {
      var size := offset + len;
      files := files[i := files[i].(size := if size >= files[i].size then size else files[i].size)];
    }

    /** The call up to the setting of the size. */
    method WriteBlocks(i: Ino, data: seq<Byte>, offset: nat)
      requires Valid(State()) && i in files && offset + |data| <= 71680
      requires B.CountFree(bits) >= Needed(files[i].size, offset, |data|)
      modifies `bits, `own, `maps, `saved, `disk, `files
      ensures Progress(old(State()), State(), i, offset / 512, Touched(offset, |data|), offset, data, |data|)
      ensures i in files && i in old(files) && files[i].size == old(files[i].size)
    {
      ghost var v0 := State();
      var start, at := offset / 512, offset % 512;
      var after := start + 1;
      ghost var last := Touched(offset, |data|);
      EnoughAtFirst(v0, i, offset, |data|, start, last);
      StartRunning(v0, i);
      var all, secondary := LoadBlocks(i);
      secondary := PassGap(i, all, secondary, start, v0);
      var written;
      secondary, written := WriteFirstBlock(i, all, secondary, start, after, at, data, v0, offset);
      BeginRest(v0, State(), i, offset, data, start, at, after, written);
      WriteRest(i, all, secondary, start, after, data, written, v0, offset, last);
      SizeKept(v0, State(), i, start, last, offset, data, |data|);
    }

    // ---------- Reading ----------

    /** What the loop of file_read loads is the file's map. */
    method LoadToRead(i: Ino) returns (all: array<Word>)
      requires Valid(State()) && i in files
      ensures fresh(all) && all[..] == maps[i].all[..140]
    {
      FileMapTable(disk, files[i], maps[i]);
      all := LoadUntilEmpty(files[i].sectors, maps[i].all);
    }

    /** The loop stops at the first empty place, after which a map has no other. */
    method LoadUntilEmpty(sectors: seq<Word>, ghost m: seq<Word>) returns (all: array<Word>)
      requires MapTable(disk, sectors, m)
      ensures fresh(all) && all[..] == m[..140]
    {
      all := new Word[140](k => 0);
      var k := 0;
      while k < 13
        invariant k <= 13 && TableLoaded(all[..], m, k)
      {
        all[k] := sectors[k];
        if all[k] == 0 {
          break;
        }
        if k == 12 {
          var words := Words(disk[all[k]]);
          forall x | 12 <= x < 140 { all[x] := words[x - 12]; }
        }
        k := k + 1;
      }
      assert TableLoaded(all[..], m, k);
    }

    /** file_read, with the sum of offset and length below 2 to the 32nd: the
        exact slice of the file's bytes. */
    method FileRead(i: Ino, offset: nat, count: nat) returns (r: int, out: seq<Byte>)
      requires Valid(State()) && i in files && offset + count < 0x1_0000_0000
      ensures offset >= files[i].size ==> r == -1 && out == []
      ensures offset < files[i].size ==>
                && r == (if offset + count > files[i].size then files[i].size - offset else count)
                && out == Data(State(), i)[offset..offset + r]
    {
      if offset >= files[i].size {
        return -1, [];
      }
      TidyOnDisk(State(), i);
      var all := LoadToRead(i);
      r := if offset + count > files[i].size then files[i].size - offset else count;
      out := ReadBlocks(i, all, offset, r);
      DataFromMap(State(), i);
      ReadAll(Img(State(), i), offset, out, files[i].size);
    }

    /** The blocks that hold the bytes are there: the branches for an empty place
        are not taken. */
    method ReadBlocks(i: Ino, all: array<Word>, offset: nat, count: nat) returns (out: seq<Byte>)
      requires Valid(State()) && i in files && offset + count <= files[i].size && offset < files[i].size
      requires i in maps && IsMap(maps[i]) && OnDisk(disk, maps[i]) && all[..] == maps[i].all[..140]
      ensures ReadSoFar(Img(State(), i), offset, out) && |out| == count
    {
      var left, passed, at := count, offset / 512, offset % 512;
      var n := if left >= 512 - at then 512 - at else left;
      out := ReadChunk(i, all, passed, at, n, [], offset);
      left := left - n;
      passed := passed + 1;
      while left > 0
        invariant 0 <= left && left + |out| == count && ReadSoFar(Img(State(), i), offset, out)
        invariant left > 0 ==> 512 * passed == offset + |out|
      {
        var n := if left >= 512 then 512 else left;
        out := ReadChunk(i, all, passed, 0, n, out, offset);
        left := left - n;
        passed := passed + 1;
      }
    }

    method ReadChunk(i: Ino, all: array<Word>, k: nat, at: nat, n: nat, got: seq<Byte>, ghost offset: nat)
      returns (out: seq<Byte>)
      requires Valid(State()) && i in files && i in maps && IsMap(maps[i]) && OnDisk(disk, maps[i])
      requires all[..] == maps[i].all[..140] && at + n <= 512 && at < 512
      requires ReadSoFar(Img(State(), i), offset, got) && 512 * k + at == offset + |got| < files[i].size
      ensures ReadSoFar(Img(State(), i), offset, out) && |out| == |got| + n
    {
      ghost var img := Img(State(), i);
      assert all[k] == all[..][k] == maps[i].all[k] != 0;
      ReadMore(img, offset, got, k, at, n);
      out := got + disk[all[k]][at..at + n];
    }

    // ---------- Removing ----------

    /** block_bitmap_dealloc and bitmap_sync. */
    method Dealloc(ghost i: Ino, ghost k: nat, b: Word)
      requires i in maps && IsMap(maps[i]) && k <= INDEX && b == Place(maps[i], k) && base <= b < base + |bits|
      requires |saved| == |bits|
      modifies `bits, `saved, `own, `maps
      ensures State() == Free(old(State()), i, k)
    {
      bits := bits[b - base := false];
      own := own - {b};
      maps := maps[i := SetPlace(maps[i], k, 0)];
      BitmapSync(b);
    }

    /** One block of a file that will not need its index sector. */
    method CutOneDirect(i: Ino, all: array<Word>, passed: nat, ghost v1: Volume, ghost start: nat)
      requires CuttingInode(v1, State(), i, start, passed) && passed < 140 && v1.maps[i].all[passed] != 0
      requires |files[i].sectors| == 13 && all[..] == maps[i].all
      modifies `bits, `saved, `own, `maps, `files, all
      ensures CuttingInode(v1, State(), i, start, passed + 1)
      ensures |files[i].sectors| == 13 && all[..] == maps[i].all
    {
      CutMoreInode(v1, State(), i, start, passed);
      Dealloc(i, passed, all[passed]);
      all[passed] := 0;
      if passed < 13 {
        SetInodeSector(i, passed, 0);
      }
    }

    /** Give back the blocks from `start` on, at most 12, and the index sector;
        the ASSERT on the number of blocks holds. */
    method CutFromDirect(i: Ino, all: array<Word>, start: nat, secondary: Word, ghost n: nat)
      requires InFlight(State(), i, n, false) && start <= 12 && start <= n <= 140 && n == BlocksFor(files[i].size)
      requires all[..] == maps[i].all && secondary == maps[i].index
      modifies `bits, `saved, `own, `maps, `files, all
      ensures CutDone(old(State()), State(), i, start)
      ensures B.CountFree(bits) == old(B.CountFree(bits)) + Taken(n) - Taken(start)
      ensures |bits| == |old(bits)| && files[i].size == old(files[i].size)
    {
      ghost var v1 := State();
      StartCuttingInode(v1, i, start);
      var passed := start;
      while all[passed] != 0
        invariant start <= passed <= n && CuttingInode(v1, State(), i, start, passed)
        invariant |files[i].sectors| == 13 && all[..] == maps[i].all
        decreases n - passed
      {
        CutOneDirect(i, all, passed, v1, start);
        passed := passed + 1;
      }
      ghost var v := State();
      if secondary != 0 {
        assert Place(maps[i], INDEX) == secondary;
        FreeKeeps(v, i, INDEX);
        Dealloc(i, INDEX, secondary);
        assert passed == BlocksFor(files[i].size);
      }
      CutDirect(v1, v, State(), i, start, n);
    }

    /** One block of a file that keeps its index sector. */
    method CutOneIndirect(i: Ino, all: array<Word>, passed: nat, ghost v1: Volume, ghost start: nat)
      requires Cutting(v1, State(), i, start, passed) && passed < 140 && v1.maps[i].all[passed] != 0
      requires i in files && all[..] == maps[i].all
      modifies `bits, `saved, `own, `maps, all
      ensures Cutting(v1, State(), i, start, passed + 1) && all[..] == maps[i].all
    {
      CutMore(v1, State(), i, start, passed);
      Dealloc(i, passed, all[passed]);
      all[passed] := 0;
    }

    /** Give back the blocks from `start` on, above 12, and write the index sector;
        the ASSERT on the number of blocks holds. */
    method CutFromIndirect(i: Ino, all: array<Word>, start: nat, secondary: Word, ghost n: nat)
      requires InFlight(State(), i, n, false) && 12 < start <= n <= 140 && n == BlocksFor(files[i].size)
      requires all[..] == maps[i].all && secondary == maps[i].index
      modifies `bits, `saved, `own, `maps, `disk, all
      ensures CutDone(old(State()), State(), i, start)
      ensures B.CountFree(bits) == old(B.CountFree(bits)) + Taken(n) - Taken(start)
      ensures |bits| == |old(bits)|
    {
      ghost var v1 := State();
      StartCutting(v1, i, start);
      var passed := start;
      while all[passed] != 0
        invariant start <= passed <= n && Cutting(v1, State(), i, start, passed)
        invariant all[..] == maps[i].all
        decreases n - passed
      {
        CutOneIndirect(i, all, passed, v1, start);
        passed := passed + 1;
      }
      CutIndirect(v1, State(), i, start, n);
      assert all[12..140] == all[..][12..140];
      IdeWrite(secondary, Packed(all[12..140]));
      assert passed == BlocksFor(files[i].size);
    }

    /** memset on a part of a block. */
    method ZeroPart(i: Ino, all: array<Word>, k: nat, at: nat, n: nat, ghost v0: Volume, ghost offset: nat,
                    ghost size: nat, ghost done: nat)
      requires Zeroing(v0, State(), i, offset, size, done) && done + n <= size && offset + done < v0.files[i].size
      requires at + n <= 512 && 512 * k + at == offset + done && at < 512
      requires all[..] == maps[i].all
      modifies `disk
      ensures Zeroing(v0, State(), i, offset, size, done + n) && all[..] == maps[i].all
    {
      ghost var v := State();
      PutBlock(i, all, k, at, Zeros(n), BlocksFor(v0.files[i].size), false);
      ZeroMore(v0, v, State(), i, offset, size, done, k, at, n);
    }

    method ZeroTail(i: Ino, all: array<Word>, offset: nat) returns (passed: nat)
      requires Valid(State()) && i in files && offset < files[i].size && all[..] == maps[i].all
      modifies `disk
      ensures passed == BlocksFor(offset) && CutFrom(old(State()), State(), i, offset) && all[..] == maps[i].all
    {
      ghost var v0, tail := State(), 512 * BlocksFor(offset) - offset;
      var at := offset % 512;
      passed := offset / 512;
      InBlock(offset);
      StartZeroing(v0, i, offset, tail);
      if at != 0 {
        ZeroPart(i, all, passed, at, 512 - at, v0, offset, tail, 0);
        passed := passed + 1;
      }
      ZeroedTail(v0, State(), i, offset);
    }

    /** The part of a removal that reaches the end of the file: the rest of the
        block `offset` lies in is zeroed, and the blocks after it given back. */
    method CutBlocks(i: Ino, all: array<Word>, secondary: Word, offset: nat, size: nat)
      requires Valid(State()) && i in files && offset < files[i].size && offset + size >= files[i].size
      requires all[..] == maps[i].all && secondary == maps[i].index
      modifies `bits, `saved, `own, `maps, `files, `disk, all
      ensures RemoveResult(old(State()), State(), i, offset, size, Ret(offset)) && files[i].size == offset
    {
      ghost var v0 := State();
      var passed := ZeroTail(i, all, offset);
      ghost var v1 := State();
      GiveBack(i, all, passed, secondary, BlocksFor(files[i].size));
      CutResult(v0, v1, State(), i, offset, size);
      files := files[i := files[i].(size := offset)];
    }

    method GiveBack(i: Ino, all: array<Word>, start: nat, secondary: Word, ghost n: nat)
      requires InFlight(State(), i, n, false) && start <= n <= 140 && n == BlocksFor(files[i].size)
      requires all[..] == maps[i].all && secondary == maps[i].index
      modifies `bits, `saved, `own, `maps, `files, `disk, all
      ensures CutDone(old(State()), State(), i, start)
      ensures B.CountFree(bits) == old(B.CountFree(bits)) + Taken(n) - Taken(start)
      ensures |bits| == |old(bits)|
    {
      if start <= 12 {
        CutFromDirect(i, all, start, secondary, n);
      } else {
        CutFromIndirect(i, all, start, secondary, n);
      }
    }

    /** The other part: a range inside the file is zeroed. */
    method ZeroRange(i: Ino, all: array<Word>, offset: nat, size: nat)
      requires Valid(State()) && i in files && offset + size < files[i].size && size > 0
      requires all[..] == maps[i].all
      modifies `disk
      ensures RemoveResult(old(State()), State(), i, offset, size, Ret(files[i].size))
    {
      ghost var v0 := State();
      var passed, at := offset / 512, offset % 512;
      var done: nat := if size >= 512 - at then 512 - at else size;
      StartZeroing(v0, i, offset, size);
      ZeroPart(i, all, passed, at, done, v0, offset, size, 0);
      ZeroRest(i, all, passed + 1, size, done, v0, offset);
      ZeroResult(v0, State(), i, offset, size);
    }

    /** The blocks after the first. */
    method ZeroRest(i: Ino, all: array<Word>, start: nat, size: nat, zeroed: nat, ghost v0: Volume, ghost offset: nat)
      requires Zeroing(v0, State(), i, offset, size, zeroed) && offset + size < v0.files[i].size
      requires (zeroed < size ==> 512 * start == offset + zeroed) && all[..] == maps[i].all
      modifies `disk
      ensures Zeroing(v0, State(), i, offset, size, size)
    {
      var passed, done: nat := start, zeroed;
      while done < size
        invariant Zeroing(v0, State(), i, offset, size, done)
        invariant done < size ==> 512 * passed == offset + done
        invariant all[..] == maps[i].all
        decreases size - done
      {
        var more := if size - done >= 512 then 512 else size - done;
        ZeroPart(i, all, passed, 0, more, v0, offset, size, done);
        done := done + more;
        passed := passed + 1;
      }
    }

    /** file_remove_some_content, with the sum of offset and size below 2 to the
        32nd. */
    method FileRemoveSomeContent(i: Ino, offset: nat, size: nat) returns (r: Outcome)
      requires Valid(State()) && i in files && offset + size < 0x1_0000_0000
      modifies `bits, `saved, `own, `maps, `files, `disk
      ensures RemoveResult(old(State()), State(), i, offset, size, r)
    {
      if offset >= files[i].size {
        return Ret(-1);
      }
      var all, secondary := LoadBlocks(i);
      if offset + size >= files[i].size {
        CutBlocks(i, all, secondary, offset, size);
      } else if size == 0 {
        return Panic;
      } else {
        ZeroRange(i, all, offset, size);
      }
      r := Ret(files[i].size);
    }

    /** To grow a file and to cut it back to its old size restores the bitmap
        exactly; of the old bytes only those written over have changed, and no
        sector of another file or of a directory has. */
    method GrowAndCut(i: Ino, data: seq<Byte>, offset: nat)
      requires Valid(State()) && i in files && files[i].size < offset + |data| <= 71680
      requires WriteKeeps(files[i].size, offset, |data|)
      requires B.CountFree(bits) >= Needed(files[i].size, offset, |data|)
      modifies `bits, `own, `maps, `saved, `disk, `files
      ensures Valid(State()) && i in files && bits == old(bits) && OthersSame(old(State()), State(), i)
      ensures var size := old(files[i].size);
              Data(State(), i) == Written(old(Data(State(), i)), offset, data)[..size]
    {
      ghost var v0 := State();
      var size := files[i].size;
      var r := FileWrite(i, data, offset);
      ghost var v1 := State();
      var out := FileRemoveSomeContent(i, size, files[i].size - size);
      CutBack(v0, v1, State(), i, offset, data, r);
    }

    // ---------- Files that come and go ----------

    /** file_create's new inode: inode_init, and no block. */
    method InodeInit(i: Ino)
      requires Valid(State()) && i !in files
      modifies `files, `maps
      ensures State() == Created(old(State()), i)
      ensures SameData(old(State()), State(), old(files.Keys)) && Data(State(), i) == []
    {
      CreateSettles(State(), i);
      var sectors: seq<Word> := [];
      while |sectors| < 13
        invariant |sectors| <= 13 && forall x :: 0 <= x < |sectors| ==> sectors[x] == 0
      {
        sectors := sectors + [0];
      }
      assert sectors == NewInode().sectors;
      files := files[i := Inode(0, sectors)];
      maps := maps[i := NoMap()];
    }

    /** sys_remove, once the name is erased: the file is cut at 0 and its inode
        goes; all its blocks are free again and nobody else's have changed. */
    method RemoveFile(i: Ino) returns (ghost cut: Volume)
      requires Valid(State()) && i in files
      modifies `bits, `saved, `own, `maps, `files, `disk
      ensures FileRemoved(old(State()), cut, State(), i)
      ensures Valid(State()) && files == old(files) - {i} && OthersSame(old(State()), State(), i)
      ensures forall j :: j in files ==> Data(State(), j) == old(Data(State(), j))
      ensures B.CountFree(bits) == old(B.CountFree(bits)) + Taken(BlocksFor(old(files[i].size)))
    {
      ghost var v := State();
      CutWhole(i);
      cut := State();
      DropInode(i);
      RemoveFileSettles(v, cut, State(), i);
    }

    method CutWhole(i: Ino)
      requires Valid(State()) && i in files
      modifies `bits, `saved, `own, `maps, `files, `disk
      ensures WasCut(old(State()), State(), i)
    {
      ghost var v := State();
      var r := FileRemoveSomeContent(i, 0, files[i].size);
      CutBy(v, State(), i, r);
    }

    method DropInode(i: Ino)
      modifies `files, `maps
      ensures State() == Dropped(old(State()), i)
    {
      files := files - {i};
      maps := maps - {i};
    }

    /** A directory takes its first or next block and writes it, as dir_create and
        sync_dir_entry do. */
    method TakeDirBlock(s: Sector) returns (b: Word)
      requires Valid(State()) && B.CountFree(bits) > 0
      modifies `bits, `saved, `kept, `disk
      ensures b == FreeBlock(old(State())) && b !in old(kept) && kept == old(kept) + {b} && disk == old(disk)[b := s]
      ensures State() == DirTaken(old(State()), b, s) && SameData(old(State()), State(), files.Keys)
      ensures B.CountFree(bits) + 1 == old(B.CountFree(bits))
    {
      DirTakeSettles(State(), s);
      B.FullIffNoneFree(bits);
      b := base + B.FirstFree(bits);
      bits := bits[b - base := true];
      kept := kept + {b};
      BitmapSync(b);
      IdeWrite(b, s);
    }

    /** A directory writes one of its blocks. */
    method WriteDirBlock(b: Word, s: Sector)
      requires Valid(State()) && b in kept
      modifies `disk
      ensures State() == Write(old(State()), b, s) && SameData(old(State()), State(), files.Keys)
    {
      DirWriteSettles(State(), b, s);
      IdeWrite(b, s);
    }
  }
}
