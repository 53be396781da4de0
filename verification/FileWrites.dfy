/** What a whole file_write does, from its steps: the bytes it leaves, and when
    it leaves the file system in order. */
module FileWrites {
  import opened Sectors
  import opened BlockMaps
  import opened Volumes
  import B = Bitmaps

  /** The bytes of file `i`. */
  function Data(v: Volume, i: Ino): (s: seq<Byte>)
    requires Valid(v) && i in v.files
    ensures |s| == v.files[i].size
  {
    ContentsOk(v.disk, v.files[i], v.maps[i]);
    Contents(v.disk, v.files[i])
  }

  lemma DataFromMap(v: Volume, i: Ino)
    requires Valid(v) && i in v.files
    ensures IsMap(v.maps[i]) && OnDisk(v.disk, v.maps[i]) && Data(v, i) == Bytes(Img(v, i), v.files[i].size)
  {
    ContentsOk(v.disk, v.files[i], v.maps[i]);
  }

  function Reach(n: nat, passed: nat): nat { if passed > n then passed else n }

  /** The blocks file_write passes: up to the last byte, but at least the one
      `offset` lies in. */
  function Touched(offset: nat, len: nat): nat {
    if len == 0 then offset / 512 + 1 else BlocksFor(offset + len)
  }

  function After(size: nat, offset: nat, len: nat): nat {
    if offset + len >= size then offset + len else size
  }

  /** Blocks the call takes from the bitmap. */
  function Needed(size: nat, offset: nat, len: nat): nat
    ensures Needed(size, offset, len) == Taken(Reach(BlocksFor(size), Touched(offset, len))) - Taken(BlocksFor(size))
  {
    Taken(Reach(BlocksFor(size), Touched(offset, len))) - Taken(BlocksFor(size))
  }

  /** A write must have a byte to write or a partial or existing block to lie
      in; and it must not be the one that starts before the index sector is
      needed and ends in the first block that needs it. */
  predicate WriteKeeps(size: nat, offset: nat, len: nat) {
    && (len > 0 || offset % 512 != 0 || offset < size)
    && !SwapEnds(size, offset, len)
  }

  predicate SwapEnds(size: nat, offset: nat, len: nat) {
    size <= 6144 && offset < 6144 && 6144 < offset + len <= 6656
  }

  /** The guard in terms of blocks. */
  lemma KeepsInBlocks(size: nat, offset: nat, len: nat)
    requires size <= 71680 && offset + len <= 71680
    ensures Reach(BlocksFor(size), Touched(offset, len)) == BlocksFor(After(size, offset, len))
            <==> len > 0 || offset % 512 != 0 || offset < size
    ensures SwapEnds(size, offset, len) <==>
            Touched(offset, len) == 13 && BlocksFor(size) <= 12 && offset / 512 < 12
    ensures offset / 512 + 1 <= Touched(offset, len) <= 141
  {}

  // ---------- Overlaying ----------

  ghost predicate Overlaid(m0: Image, m: Image, offset: nat, data: seq<Byte>) {
    && |m0| == 140 && |m| == 140
    && forall j :: 0 <= j < 71680 ==>
         ByteAt(m, j) == if offset <= j < offset + |data| then data[j - offset] else ByteAt(m0, j)
  }

  lemma OverlayStep(m0: Image, m: Image, offset: nat, data: seq<Byte>, k: nat, at: nat, bytes: seq<Byte>)
    requires Overlaid(m0, m, offset, data) && k < 140 && at + |bytes| <= 512 && 512 * k + at == offset + |data|
    ensures Overlaid(m0, m[k := Patch(m[k], at, bytes)], offset, data + bytes)
  {
    var m1, more := m[k := Patch(m[k], at, bytes)], data + bytes;
    forall j | 0 <= j < 71680
      ensures ByteAt(m1, j) == if offset <= j < offset + |more| then more[j - offset] else ByteAt(m0, j)
    {
      PatchedBytes(m, k, at, bytes, j);
      assert ByteAt(m, j) == if offset <= j < offset + |data| then data[j - offset] else ByteAt(m0, j);
      if offset <= j < offset + |more| {
        assert more[j - offset] == if j - offset < |data| then data[j - offset] else bytes[j - offset - |data|];
      }
    }
  }

  lemma OverlaidNothing(m: Image, offset: nat)
    requires |m| == 140
    ensures Overlaid(m, m, offset, [])
  {}

  /** The next chunk of `data`. */
  lemma OverlayMore(m0: Image, m: Image, offset: nat, data: seq<Byte>, done: nat, k: nat, at: nat, size: nat)
    requires done + size <= |data| && Overlaid(m0, m, offset, data[..done])
    requires k < 140 && at + size <= 512 && 512 * k + at == offset + done
    ensures Overlaid(m0, m[k := Patch(m[k], at, data[done..done + size])], offset, data[..done + size])
  {
    OverlayStep(m0, m, offset, data[..done], k, at, data[done..done + size]);
    assert data[..done] + data[done..done + size] == data[..done + size];
  }

  /** The first chunk, into the block that `offset` lies in. */
  lemma FirstOverlay(m0: Image, m: Image, offset: nat, data: seq<Byte>, k: nat, at: nat, size: nat)
    requires |m0| == 140 && offset == 512 * k + at && at + size <= 512 && size <= |data| && offset + |data| <= 71680
    requires if k < 140 then PutIn(m0, m, k, at, data[0..size]) else m == m0 && size == 0
    ensures Overlaid(m0, m, offset, data[..size])
  {
    OverlaidNothing(m0, offset);
    if k < 140 {
      OverlayMore(m0, m0, offset, data, 0, k, at, size);
    }
  }

  /** The chunk that completes the data is in the last block passed. */
  lemma LastBlock(offset: nat, len: nat, done: nat, passed: nat)
    requires done < len && 512 * passed == offset + done
    ensures passed < Touched(offset, len)
    ensures len - done <= 512 ==> passed + 1 == Touched(offset, len)
  {}

  lemma WholePatch(s: Sector, t: Sector, bytes: seq<Byte>)
    requires |bytes| == 512
    ensures Patch(s, 0, bytes) == Patch(t, 0, bytes)
  {}

  /** A block about to be overwritten as a whole may hold anything. */
  lemma OverlayWhole(m0: Image, m: Image, m1: Image, offset: nat, data: seq<Byte>, done: nat, k: nat)
    requires done + 512 <= |data| && Overlaid(m0, m, offset, data[..done]) && |m1| == 140
    requires k < 140 && 512 * k == offset + done && forall x :: 0 <= x < 140 && x != k ==> m1[x] == m[x]
    ensures Overlaid(m0, m1[k := Patch(m1[k], 0, data[done..done + 512])], offset, data[..done + 512])
  {
    var chunk := data[done..done + 512];
    OverlayMore(m0, m, offset, data, done, k, 0, 512);
    WholePatch(m[k], m1[k], chunk);
    assert m1[k := Patch(m1[k], 0, chunk)] == m[k := Patch(m[k], 0, chunk)];
  }

  lemma OverlaidBytes(m0: Image, m: Image, offset: nat, data: seq<Byte>, size: nat)
    requires Overlaid(m0, m, offset, data) && ZeroFrom(m0, size) && size <= 71680 && offset + |data| <= 71680
    ensures var n := After(size, offset, |data|);
            ZeroFrom(m, n) && Bytes(m, n) == Written(Bytes(m0, size), offset, data)
  {}

  // ---------- The end of the call ----------

  function Resized(v: Volume, i: Ino, size: nat): Volume
    requires i in v.files
  {
    v.(files := v.files[i := v.files[i].(size := size)])
  }

  /** Files other than `i`, after a call that has only worked on `i`. */
  lemma OthersOk(v0: Volume, v: Volume, i: Ino, j: Ino)
    requires Valid(v0) && |v.disk| == |v0.disk| && OthersSame(v0, v, i)
    requires j in v0.files && j != i
    ensures FileOk(v.disk, v0.files[j], v0.maps[j])
    ensures HasContents(v.disk, v0.files[j], v0.maps[j]) && Contents(v.disk, v0.files[j]) == Data(v0, j)
  {
    var m := v0.maps[j];
    forall k | 0 <= k <= INDEX && Place(m, k) != 0
      ensures v.disk[Place(m, k)] == v0.disk[Place(m, k)]
    {
      assert SameAt(v0.disk, v.disk, m, k);
    }
    FileFrame(v0.disk, v.disk, v0.files[j], m);
  }

  /** One file in order; the others and the directories' blocks as before. */
  ghost predicate Settled(v0: Volume, u: Volume, i: Ino, bytes: seq<Byte>) {
    && Valid(v0) && Valid(u) && u.files.Keys == v0.files.Keys && i in u.files
    && |u.disk| == |v0.disk| && OthersSame(v0, u, i)
    && Data(u, i) == bytes
    && forall j :: j in u.files && j != i ==> u.files[j] == v0.files[j] && Data(u, j) == Data(v0, j)
  }

  /** A call has only worked on file `i`. */
  ghost predicate OneChanged(v0: Volume, u: Volume, i: Ino) {
    && Tidy(u) && |u.disk| == |v0.disk| && OthersSame(v0, u, i) && i in v0.files
    && u.files.Keys == v0.files.Keys && (forall j :: j in u.files && j != i ==> u.files[j] == v0.files[j])
    && (forall j :: j in u.files && j != i ==> j in v0.maps && u.maps[j] == v0.maps[j])
  }

  lemma ResizedToo(v0: Volume, v: Volume, i: Ino, size: nat)
    requires OneChanged(v0, v, i)
    ensures OneChanged(v0, Resized(v, i, size), i)
  {}

  lemma ExtendedOne(v0: Volume, v: Volume, i: Ino, cnt: nat)
    requires Extended(v0, v, i, cnt) && Tidy(v)
    ensures OneChanged(v0, v, i)
  {}

  lemma Settle(v0: Volume, u: Volume, i: Ino, bytes: seq<Byte>)
    requires Valid(v0) && OneChanged(v0, u, i)
    requires FileOk(u.disk, u.files[i], u.maps[i])
    requires Bytes(Img(u, i), u.files[i].size) == bytes
    ensures Settled(v0, u, i, bytes)
  {
    forall j | j in u.files && j != i
      ensures FileOk(u.disk, u.files[j], u.maps[j])
    {
      OthersOk(v0, u, i, j);
    }
    DataFromMap(u, i);
    forall j | j in u.files && j != i
      ensures Data(u, j) == Data(v0, j)
    {
      OthersOk(v0, u, i, j);
    }
  }

  lemma WriteSettles(v0: Volume, v: Volume, i: Ino, n: nat, cnt: nat, offset: nat, data: seq<Byte>)
    requires Valid(v0) && i in v0.files && InFlight(v, i, n, false) && Extended(v0, v, i, cnt)
    requires IsMap(v0.maps[i]) && OnDisk(v0.disk, v0.maps[i])
    requires Overlaid(Img(v0, i), Img(v, i), offset, data) && offset + |data| <= 71680
    requires n == BlocksFor(After(v0.files[i].size, offset, |data|))
    ensures Settled(v0, Resized(v, i, After(v0.files[i].size, offset, |data|)), i,
                    Written(Data(v0, i), offset, data))
  {
    var size := v0.files[i].size;
    var u := Resized(v, i, After(size, offset, |data|));
    DataFromMap(v0, i);
    OverlaidBytes(Img(v0, i), Img(v, i), offset, data, size);
    ExtendedOne(v0, v, i, cnt);
    ResizedToo(v0, v, i, After(size, offset, |data|));
    Settle(v0, u, i, Written(Data(v0, i), offset, data));
  }

  /** A file with a block too many, or with its index sector unwritten, is not
      in order. */
  lemma NotInOrder(v: Volume, i: Ino, n: nat, stale: bool, size: nat)
    requires InFlight(v, i, n, stale) && n <= 141 && (stale || n != BlocksFor(size))
    ensures !Valid(Resized(v, i, size))
  {
    var m := v.maps[i];
    if stale {
      assert m.all[12] != 0;
      assert m.all[12..140][0] == m.all[12];
      assert seq(128, x => 0)[0] == 0;
    } else if Valid(Resized(v, i, size)) {
      ShapedOnce(m, n, BlocksFor(size));
    }
  }

  lemma StaleIsEmpty(v: Volume, i: Ino, n: nat)
    ensures InFlight(v, i, n, true) ==> EmptyIndex(v, i)
  {}

  lemma ShapedOnce(m: FileMap, a: nat, b: nat)
    requires Shaped(m, a) && Shaped(m, b) && a <= 141 && b <= 141
    ensures a == b
  {
    if a < 141 { assert m.all[a] == 0; }
    if b < 141 { assert m.all[b] == 0; }
  }

  // ---------- The loops ----------

  function Before(v0: Volume, i: Ino): nat
    requires i in v0.files
  {
    BlocksFor(v0.files[i].size)
  }

  /** In a write on file `i` that began in v0 and has passed some blocks. */
  ghost predicate Running(v0: Volume, v: Volume, i: Ino, passed: nat, stale: bool) {
    && Valid(v0) && i in v0.files
    && InFlight(v, i, Reach(Before(v0, i), passed), stale)
    && Extended(v0, v, i, Taken(Reach(Before(v0, i), passed)) - Taken(Before(v0, i)))
  }

  /** There was room for the blocks up to `last`. */
  ghost predicate Enough(v0: Volume, i: Ino, last: nat) {
    i in v0.files && B.CountFree(v0.bits) >= Taken(Reach(Before(v0, i), last)) - Taken(Before(v0, i))
  }

  /** And so there is for the next one. */
  lemma RoomLeft(v0: Volume, v: Volume, i: Ino, passed: nat, stale: bool, last: nat)
    requires Running(v0, v, i, passed, stale) && passed < last && Before(v0, i) <= passed
    requires Enough(v0, i, last)
    ensures B.CountFree(v.bits) >= Taken(passed + 1) - Taken(passed)
  {}

  /** Room for the call is room for its first block. */
  lemma EnoughAtFirst(v0: Volume, i: Ino, offset: nat, len: nat, start: nat, last: nat)
    requires i in v0.files && v0.files[i].size <= 71680 && offset + len <= 71680
    requires B.CountFree(v0.bits) >= Needed(v0.files[i].size, offset, len)
    requires start == offset / 512 && last == Touched(offset, len)
    ensures start <= 140 && start + 1 <= last && Enough(v0, i, start + 1) && Enough(v0, i, last)
  {
    KeepsInBlocks(v0.files[i].size, offset, len);
  }

  /** The rest begins with the second block. */
  lemma BeginRest(v0: Volume, v: Volume, i: Ino, offset: nat, data: seq<Byte>, start: nat, at: nat, after: nat,
                  size: nat)
    requires start == offset / 512 && at == offset % 512 && after == start + 1
    requires size == (if |data| >= 512 - at then 512 - at else |data|)
    requires Begun(v0, v, i, after, offset, data[..size]) && offset + |data| <= 71680
    ensures Progress(v0, v, i, start, after, offset, data, size)
    ensures size == |data| ==> after == Touched(offset, |data|)
  {
    TidyOnDisk(v0, i);
  }

  lemma PassMapped(v0: Volume, v: Volume, u: Volume, i: Ino, passed: nat, stale: bool, stale': bool)
    requires Running(v0, v, i, passed, stale) && Before(v0, i) <= passed
    requires InFlight(u, i, passed + 1, stale') && Extended(v, u, i, Taken(passed + 1) - Taken(passed))
    ensures Running(v0, u, i, passed + 1, stale')
  {
    ExtendedTwice(v0, v, u, i, Taken(passed) - Taken(Before(v0, i)), Taken(passed + 1) - Taken(passed));
  }

  /** A block that is there is passed by. */
  lemma PassThere(v0: Volume, v: Volume, i: Ino, passed: nat)
    requires Running(v0, v, i, passed, false) && passed < Before(v0, i)
    ensures Running(v0, v, i, passed + 1, false)
  {}

  lemma PassPut(v0: Volume, v: Volume, u: Volume, i: Ino, passed: nat, stale: bool)
    requires Running(v0, v, i, passed, stale)
    requires InFlight(u, i, Reach(Before(v0, i), passed), stale) && Extended(v, u, i, 0)
    ensures Running(v0, u, i, passed, stale)
  {
    ExtendedTwice(v0, v, u, i, Taken(Reach(Before(v0, i), passed)) - Taken(Before(v0, i)), 0);
  }

  /** Whether block `passed` is missing, as the loops test it. */
  lemma Missing(v0: Volume, v: Volume, i: Ino, passed: nat, stale: bool)
    requires Running(v0, v, i, passed, stale) && passed <= 140
    ensures v.maps[i].all[passed] == 0 <==> Before(v0, i) <= passed
  {}

  /** So far blocks have only been added. */
  ghost predicate InGap(v0: Volume, v: Volume, i: Ino, passed: nat) {
    Running(v0, v, i, passed, false) && Img(v, i) == Img(v0, i)
  }

  /** The first bytes are there. */
  ghost predicate Begun(v0: Volume, v: Volume, i: Ino, passed: nat, offset: nat, bytes: seq<Byte>) {
    Running(v0, v, i, passed, false) && offset + |bytes| <= 71680 && Overlaid(Img(v0, i), Img(v, i), offset, bytes)
  }

  lemma StartRunning(v0: Volume, i: Ino)
    requires Valid(v0) && i in v0.files
    ensures InGap(v0, v0, i, 0) && Overlaid(Img(v0, i), Img(v0, i), 0, [])
  {
    TidyOnDisk(v0, i);
  }

  /** The index sector is unwritten after block 12 if the write began before it
      and found it missing. */
  ghost predicate StaleAt(v0: Volume, i: Ino, start: nat, passed: nat) {
    i in v0.files && passed == 13 && Before(v0, i) <= 12 && start < 12
  }

  /** In the loop that writes the blocks after the first. */
  ghost predicate Progress(v0: Volume, v: Volume, i: Ino, start: nat, passed: nat, offset: nat, data: seq<Byte>, done: nat) {
    && done <= |data| && start + 1 <= passed
    && (done < |data| ==> 512 * passed == offset + done)
    && Running(v0, v, i, passed, StaleAt(v0, i, start, passed))
    && IsMap(v0.maps[i]) && OnDisk(v0.disk, v0.maps[i])
    && (done < |data| || !StaleAt(v0, i, start, passed) ==> Overlaid(Img(v0, i), Img(v, i), offset, data[..done]))
  }

  lemma SizeKept(v0: Volume, v: Volume, i: Ino, start: nat, passed: nat, offset: nat, data: seq<Byte>, done: nat)
    requires Progress(v0, v, i, start, passed, offset, data, done)
    ensures i in v0.files && i in v.files && v.files[i].size == v0.files[i].size
  {}

  /** The block that `offset` lies in: `u` has it in its map, `w` has the bytes. */
  lemma FirstPassed(v0: Volume, u: Volume, w: Volume, i: Ino, start: nat, offset: nat, data: seq<Byte>, at: nat, size: nat)
    requires InGap(v0, u, i, start + 1) && start <= 140
    requires offset == 512 * start + at && at + size <= 512 && size <= |data| && offset + |data| <= 71680
    requires InFlight(w, i, Reach(Before(v0, i), start + 1), false) && Extended(u, w, i, 0)
    requires if start < 140 then BlockPut(u, w, i, Reach(Before(v0, i), start + 1), false, start, at, data[0..size])
             else w == u && size == 0
    ensures Begun(v0, w, i, start + 1, offset, data[..size])
  {
    PassPut(v0, u, w, i, start + 1, false);
    FirstOverlay(Img(v0, i), Img(w, i), offset, data, start, at, size);
  }

  function Chunk(data: seq<Byte>, done: nat): (n: nat)
    requires done <= |data|
  {
    if |data| - done >= 512 then 512 else |data| - done
  }

  lemma LastChunk(v0: Volume, v: Volume, i: Ino, start: nat, passed: nat, offset: nat, data: seq<Byte>, done: nat,
                  after: nat, next: nat, last: nat)
    requires Progress(v0, v, i, start, passed, offset, data, done) && done < |data|
    requires after == passed + 1 && next == done + Chunk(data, done) && last == Touched(offset, |data|)
    ensures done < next <= |data| && (next == |data| ==> after == last)
  {
    LastBlock(offset, |data|, done, passed);
  }

  /** The bytes after one round: `m` before, `m1` with the block in the map. */
  lemma ChunkOverlay(m0: Image, m: Image, m1: Image, m2: Image, stale: bool, offset: nat, data: seq<Byte>, done: nat,
                     next: nat, k: nat)
    requires done < next <= |data| && next == done + Chunk(data, done)
    requires Overlaid(m0, m, offset, data[..done]) && |m1| == 140
    requires k < 140 && 512 * k == offset + done
    requires forall x :: 0 <= x < 140 && x != k ==> m1[x] == m[x]
    requires !stale ==> m1 == m
    requires !stale || Chunk(data, done) == 512
    requires PutIn(m1, m2, k, 0, data[done..next])
    ensures Overlaid(m0, m2, offset, data[..next])
  {
    if stale {
      OverlayWhole(m0, m, m1, offset, data, done, k);
    } else {
      OverlayMore(m0, m, offset, data, done, k, 0, next - done);
    }
  }

  /** In one round of that loop, from `v` to `u` the block has been entered in the
      map. */
  ghost predicate Reached(v0: Volume, v: Volume, u: Volume, i: Ino, start: nat, passed: nat, after: nat, offset: nat,
                          data: seq<Byte>, done: nat, next: nat) {
    && Progress(v0, v, i, start, passed, offset, data, done) && done < |data| && offset + |data| <= 71680
    && after == passed + 1 && next == done + Chunk(data, done)
    && Running(v0, u, i, after, StaleAt(v0, i, start, after))
    && (forall x :: 0 <= x < 140 && x != 12 ==> Img(u, i)[x] == Img(v, i)[x])
    && (!StaleAt(v0, i, start, after) ==> Img(u, i) == Img(v, i))
  }

  lemma ReachedBlock(v0: Volume, v: Volume, u: Volume, i: Ino, start: nat, passed: nat, after: nat, offset: nat,
                     data: seq<Byte>, done: nat, next: nat)
    requires Reached(v0, v, u, i, start, passed, after, offset, data, done, next)
    ensures i in v0.files && InFlight(u, i, Reach(Before(v0, i), after), StaleAt(v0, i, start, after))
    ensures passed < Reach(Before(v0, i), after) && passed < 140 && start + 1 <= after
    ensures done < next <= |data| && next - done <= 512 && (next < |data| ==> 512 * after == offset + next)
  {}

  /** And then, in `w`, the chunk is written. */
  lemma Progresses(v0: Volume, v: Volume, u: Volume, w: Volume, i: Ino, start: nat, passed: nat, after: nat, offset: nat,
                   data: seq<Byte>, done: nat, next: nat, chunk: seq<Byte>)
    requires Reached(v0, v, u, i, start, passed, after, offset, data, done, next)
    requires i in v0.files && next <= |data| && chunk == data[done..next]
    requires BlockPut(u, w, i, Reach(Before(v0, i), after), StaleAt(v0, i, start, after), passed, 0, chunk)
    ensures Progress(v0, w, i, start, after, offset, data, next)
  {
    ReachedBlock(v0, v, u, i, start, passed, after, offset, data, done, next);
    var stale := StaleAt(v0, i, start, after);
    PassPut(v0, u, w, i, after, stale);
    if !stale || Chunk(data, done) == 512 {
      ReachedOverlay(v0, v, u, w, i, start, passed, after, offset, data, done, next, chunk);
    }
  }

  lemma ReachedOverlay(v0: Volume, v: Volume, u: Volume, w: Volume, i: Ino, start: nat, passed: nat, after: nat,
                       offset: nat, data: seq<Byte>, done: nat, next: nat, chunk: seq<Byte>)
    requires Reached(v0, v, u, i, start, passed, after, offset, data, done, next)
    requires i in v0.files && next <= |data| && chunk == data[done..next]
    requires BlockPut(u, w, i, Reach(Before(v0, i), after), StaleAt(v0, i, start, after), passed, 0, chunk)
    requires !StaleAt(v0, i, start, after) || Chunk(data, done) == 512
    ensures IsMap(v0.maps[i]) && OnDisk(v0.disk, v0.maps[i])
    ensures Overlaid(Img(v0, i), Img(w, i), offset, data[..next])
  {
    ReachedBlock(v0, v, u, i, start, passed, after, offset, data, done, next);
    ChunkOverlay(Img(v0, i), Img(v, i), Img(u, i), Img(w, i), StaleAt(v0, i, start, after), offset, data, done, next,
                 passed);
  }

  // ---------- The whole call ----------

  /** File `i` has a new size and `cnt` more blocks; all else is as it was. */
  ghost predicate Grown(v0: Volume, u: Volume, i: Ino, size: nat, cnt: nat) {
    && i in v0.files && i in u.files && u.files == v0.files[i := u.files[i]]
    && u.files[i].size == size && |u.files[i].sectors| == 13
    && i in v0.maps && i in u.maps && u.maps == v0.maps[i := u.maps[i]] && Keeps(v0.maps[i], u.maps[i])
    && |u.bits| == |v0.bits| && B.CountFree(u.bits) + cnt == B.CountFree(v0.bits)
    && |u.disk| == |v0.disk| && OthersSame(v0, u, i)
  }

  lemma ResizedGrown(v0: Volume, v: Volume, i: Ino, size: nat, cnt: nat)
    requires Extended(v0, v, i, cnt) && |v.files[i].sectors| == 13
    ensures Grown(v0, Resized(v, i, size), i, size, cnt)
  {
    var u := Resized(v, i, size);
    assert u.files == v0.files[i := u.files[i]];
  }

  /** What file_write promises.  The value returned is the length less the part
      of `offset` inside its block; the blocks taken are those the call passes;
      no sector of another file or of a directory changes; and the state is in
      order, with the bytes written, exactly when the guard holds. */
  ghost predicate WriteResult(v0: Volume, u: Volume, i: Ino, offset: nat, data: seq<Byte>, r: int)
    requires Valid(v0) && i in v0.files
  {
    var size := v0.files[i].size;
    if offset + |data| > 71680 then r == -1 && u == v0
    else
      && r == |data| - offset % 512
      && Grown(v0, u, i, After(size, offset, |data|), Needed(size, offset, |data|))
      && (Valid(u) <==> WriteKeeps(size, offset, |data|))
      && (WriteKeeps(size, offset, |data|) ==> Settled(v0, u, i, Written(Data(v0, i), offset, data)))
      && (SwapEnds(size, offset, |data|) ==> EmptyIndex(u, i))
  }

  /** The inode names an index sector, but that sector names no block. */
  ghost predicate EmptyIndex(u: Volume, i: Ino) {
    && i in u.files && |u.files[i].sectors| == 13 && 0 < u.files[i].sectors[12] < |u.disk|
    && Words(u.disk[u.files[i].sectors[12]]) == seq(128, x => 0)
  }

  /** The blocks taken are those the new size needs exactly when the first part
      of the guard holds; else they are more, and lost. */
  lemma TakesWhatIsNeeded(size: nat, offset: nat, len: nat)
    requires size <= 71680 && offset + len <= 71680
    ensures Needed(size, offset, len) >= Taken(BlocksFor(After(size, offset, len))) - Taken(BlocksFor(size))
    ensures Needed(size, offset, len) == Taken(BlocksFor(After(size, offset, len))) - Taken(BlocksFor(size))
            <==> len > 0 || offset % 512 != 0 || offset < size
  {
    KeepsInBlocks(size, offset, len);
  }

  /** After every write in the excluded case the inode claims the bytes, but those
      from 6144 on are lost to whoever reads the disk; */
  lemma SwapLoses(v0: Volume, u: Volume, i: Ino, offset: nat, data: seq<Byte>, r: int)
    requires Valid(v0) && i in v0.files && SwapEnds(v0.files[i].size, offset, |data|)
    requires WriteResult(v0, u, i, offset, data, r)
    ensures i in u.files && u.files[i].size == offset + |data| > 6144 && AllBlocksEmpty(u, i) && !Valid(u)
  {
    EmptyTable(u, i);
  }

  lemma EmptyTable(u: Volume, i: Ino)
    ensures EmptyIndex(u, i) ==> AllBlocksEmpty(u, i)
  {}

  /** as after the first 6200 bytes of a new file. */
  lemma SwapExample(v0: Volume, u: Volume, i: Ino, data: seq<Byte>, r: int)
    requires Valid(v0) && i in v0.files && v0.files[i].size == 0 && |data| == 6200
    requires WriteResult(v0, u, i, 0, data, r)
    ensures i in u.files && u.files[i].size == 6200 && AllBlocksEmpty(u, i) && !Valid(u)
  {
    SwapLoses(v0, u, i, 0, data, r);
  }

  ghost predicate AllBlocksEmpty(u: Volume, i: Ino) {
    && i in u.files && |u.files[i].sectors| == 13 && u.files[i].sectors[12] < |u.disk|
    && forall k :: 12 <= k < 140 ==> AllBlocks(u.disk, u.files[i].sectors)[k] == 0
  }

  /** The state when all loops are done, and what setting the size makes of it. */
  lemma WriteEnds(v0: Volume, v: Volume, i: Ino, offset: nat, data: seq<Byte>, r: int)
    requires Valid(v0) && i in v0.files && offset + |data| <= 71680 && r == |data| - offset % 512
    requires Progress(v0, v, i, offset / 512, Touched(offset, |data|), offset, data, |data|)
    ensures WriteResult(v0, Resized(v, i, After(v0.files[i].size, offset, |data|)), i, offset, data, r)
  {
    var size := v0.files[i].size;
    var n := Reach(BlocksFor(size), Touched(offset, |data|));
    KeepsInBlocks(size, offset, |data|);
    assert data[..|data|] == data;
    ResizedGrown(v0, v, i, After(size, offset, |data|), Needed(size, offset, |data|));
    if WriteKeeps(size, offset, |data|) {
      WriteSettles(v0, v, i, n, Taken(n) - Taken(BlocksFor(size)), offset, data);
    } else {
      NotInOrder(v, i, n, SwapEnds(size, offset, |data|), After(size, offset, |data|));
      StaleIsEmpty(v, i, n);
    }
  }
}
