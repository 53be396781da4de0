/** What file_read and file_remove_some_content do, from their steps. */
module FileCuts {
  import opened Sectors
  import opened BlockMaps
  import opened Volumes
  import opened FileWrites
  import B = Bitmaps

  // ---------- Reading ----------

  ghost predicate ReadSoFar(m: Image, offset: nat, s: seq<Byte>) {
    |m| == 140 && offset + |s| <= 71680 && forall j :: 0 <= j < |s| ==> s[j] == ByteAt(m, offset + j)
  }

  lemma ReadMore(m: Image, offset: nat, s: seq<Byte>, k: nat, at: nat, n: nat)
    requires ReadSoFar(m, offset, s) && k < 140 && at + n <= 512 && 512 * k + at == offset + |s|
    ensures ReadSoFar(m, offset, s + m[k][at..at + n])
  {
    var t := s + m[k][at..at + n];
    forall j | 0 <= j < |t|
      ensures t[j] == ByteAt(m, offset + j)
    {
      if j >= |s| {
        var r := at + (j - |s|);
        Split(k, r);
        assert offset + j == 512 * k + r;
      }
    }
  }

  lemma ReadAll(m: Image, offset: nat, s: seq<Byte>, size: nat)
    requires ReadSoFar(m, offset, s) && offset + |s| <= size <= 71680
    ensures s == Bytes(m, size)[offset..offset + |s|]
  {}

  // ---------- Cutting ----------

  /** The map without the places from `a` up to `b`. */
  function Gap(m: FileMap, a: nat, b: nat): (r: FileMap)
    requires IsMap(m)
    ensures IsMap(r) && r.index == m.index
    ensures forall k :: 0 <= k < 141 ==> r.all[k] == if a <= k < b then 0 else m.all[k]
  {
    FileMap(seq(141, k requires 0 <= k < 141 => if a <= k < b then 0 else m.all[k]), m.index)
  }

  /** The map of the file's first n blocks. */
  function Cut(m: FileMap, n: nat): (r: FileMap)
    requires IsMap(m)
    ensures IsMap(r)
  {
    FileMap(Gap(m, n, 141).all, if n > 12 then m.index else 0)
  }

  lemma CutShaped(m: FileMap, n: nat, k: nat)
    requires Shaped(m, n) && k <= n <= 140
    ensures Shaped(Cut(m, k), k)
  {}

  /** Growing and cutting back gives the old map. */
  lemma CutKept(m0: FileMap, n0: nat, m1: FileMap, n1: nat)
    requires Shaped(m0, n0) && Shaped(m1, n1) && Keeps(m0, m1) && n0 <= n1 <= 140
    ensures Cut(m1, n0) == m0
  {
    forall k | 0 <= k < 141
      ensures Cut(m1, n0).all[k] == m0.all[k]
    {
      assert Place(m0, k) == m0.all[k] && Place(m1, k) == m1.all[k];
    }
    assert Place(m0, INDEX) == m0.index && Place(m1, INDEX) == m1.index;
  }

  /** In the loops that give back the blocks from `m` on, before block p; `v1` is
      the state before them. */
  ghost predicate Cutting(v1: Volume, v: Volume, i: Ino, m: nat, p: nat) {
    && Tidy(v) && v.base == v1.base && v.kept == v1.kept && |v.bits| == |v1.bits| && v.disk == v1.disk
    && i in v1.files && i in v1.maps && IsMap(v1.maps[i]) && v.files.Keys == v1.files.Keys
    && m <= p && v.maps == v1.maps[i := Gap(v1.maps[i], m, p)]
    && B.CountFree(v.bits) == B.CountFree(v1.bits) + (p - m)
  }

  lemma StartCutting(v1: Volume, i: Ino, m: nat)
    requires Tidy(v1) && i in v1.files && IsMap(v1.maps[i])
    ensures Cutting(v1, v1, i, m, m)
  {
    assert Gap(v1.maps[i], m, m) == v1.maps[i];
    assert v1.maps == v1.maps[i := Gap(v1.maps[i], m, m)];
  }

  lemma CutMore(v1: Volume, v: Volume, i: Ino, m: nat, p: nat)
    requires Cutting(v1, v, i, m, p) && p < 141 && i in v.files && v1.maps[i].all[p] != 0
    ensures IsMap(v.maps[i]) && v.base < Place(v.maps[i], p) < v.base + |v.bits| && |v.saved| == |v.bits|
    ensures Cutting(v1, Free(v, i, p), i, m, p + 1)
  {
    assert Place(v.maps[i], p) == v1.maps[i].all[p];
    FreeKeeps(v, i, p);
    FreeCounts(v, i, p);
    assert SetPlace(v.maps[i], p, 0) == Gap(v1.maps[i], m, p + 1);
    assert Free(v, i, p).maps == v1.maps[i := Gap(v1.maps[i], m, p + 1)];
  }

  /** All blocks from m on are gone: the loop's test of the next place fails. */
  lemma CutEnd(m: FileMap, n: nat, a: nat)
    requires Shaped(m, n) && a <= n <= 140
    ensures Gap(m, a, n).all == Cut(m, a).all
  {}

  /** A file that needs no index sector any more: the inode's entries are those
      that are left, and the index sector is given back. */
  lemma CutDirect(v1: Volume, v: Volume, u: Volume, i: Ino, m: nat, n: nat)
    requires InFlight(v1, i, n, false) && m <= 12 && m <= n <= 140 && CuttingInode(v1, v, i, m, n)
    requires n > 12 ==> v1.maps[i].index != 0 && v.maps[i].index == v1.maps[i].index
                        && v.base <= v.maps[i].index < v.base + |v.bits| && u == Free(v, i, INDEX)
    requires n <= 12 ==> u == v
    ensures CutDone(v1, u, i, m)
    ensures B.CountFree(u.bits) == B.CountFree(v1.bits) + Taken(n) - Taken(m)
  {
    CutDirectMaps(v1, v, u, i, m, n);
    if n > 12 {
      IndexFreed(v, i);
    }
    CutDirectDone(v1, u, i, m, n);
  }

  lemma CutDirectMaps(v1: Volume, v: Volume, u: Volume, i: Ino, m: nat, n: nat)
    requires CuttingInode(v1, v, i, m, n) && Shaped(v1.maps[i], n) && m <= 12 && m <= n <= 140
    requires v1.files[i].sectors == v1.maps[i].all[..12] + [v1.maps[i].index]
    requires u.files == v.files && u.maps == if n > 12 then v.maps[i := SetPlace(v.maps[i], INDEX, 0)] else v.maps
    ensures u.maps == v1.maps[i := Cut(v1.maps[i], m)]
    ensures u.files == v1.files[i := Inode(v1.files[i].size, Cut(v1.maps[i], m).all[..12] + [0])]
  {
    CutMap(v1.maps[i], m, n, v1.files[i].sectors);
  }

  lemma IndexFreed(v: Volume, i: Ino)
    requires Tidy(v) && i in v.files && IsMap(v.maps[i]) && v.maps[i].index != 0
    ensures v.base <= Place(v.maps[i], INDEX) < v.base + |v.bits|
    ensures var u := Free(v, i, INDEX);
            && Tidy(u) && u.base == v.base && u.kept == v.kept && u.disk == v.disk && u.files == v.files
            && u.maps == v.maps[i := SetPlace(v.maps[i], INDEX, 0)]
            && B.CountFree(u.bits) == B.CountFree(v.bits) + 1
  {
    assert Place(v.maps[i], INDEX) == v.maps[i].index;
    FreeKeeps(v, i, INDEX);
    FreeCounts(v, i, INDEX);
  }

  lemma CutDirectDone(v1: Volume, u: Volume, i: Ino, m: nat, n: nat)
    requires InFlight(v1, i, n, false) && m <= 12 && m <= n <= 140
    requires Tidy(u) && u.base == v1.base && u.kept == v1.kept && u.disk == v1.disk
    requires u.maps == v1.maps[i := Cut(v1.maps[i], m)]
    requires u.files == v1.files[i := Inode(v1.files[i].size, Cut(v1.maps[i], m).all[..12] + [0])]
    ensures CutDone(v1, u, i, m)
  {
    CutShaped(v1.maps[i], n, m);
  }

  lemma CutMap(m1: FileMap, m: nat, n: nat, sectors: seq<Word>)
    requires Shaped(m1, n) && m <= 12 && m <= n <= 140 && sectors == m1.all[..12] + [m1.index]
    ensures LeftSectors(sectors, m, n) == Cut(m1, m).all[..12] + [0]
    ensures SetPlace(Gap(m1, m, n), INDEX, 0) == Cut(m1, m)
    ensures n <= 12 ==> Gap(m1, m, n) == Cut(m1, m)
  {
    CutEnd(m1, n, m);
  }

  /** The inode's entries with those from a up to b cleared. */
  function LeftSectors(sectors: seq<Word>, a: nat, b: nat): (r: seq<Word>)
    ensures |r| == |sectors|
    ensures forall k :: 0 <= k < |r| ==> r[k] == if a <= k < b then 0 else sectors[k]
  {
    seq(|sectors|, k requires 0 <= k < |sectors| => if a <= k < b then 0 else sectors[k])
  }

  lemma LeftMore(sectors: seq<Word>, a: nat, b: nat)
    requires a <= b
    ensures LeftSectors(sectors, a, a) == sectors
    ensures b < |sectors| ==> LeftSectors(sectors, a, b + 1) == LeftSectors(sectors, a, b)[b := 0]
    ensures b >= |sectors| ==> LeftSectors(sectors, a, b + 1) == LeftSectors(sectors, a, b)
  {}

  /** The loop that also clears the inode's entries. */
  ghost predicate CuttingInode(v1: Volume, v: Volume, i: Ino, m: nat, p: nat) {
    && Cutting(v1, v, i, m, p)
    && v.files == v1.files[i := Inode(v1.files[i].size, LeftSectors(v1.files[i].sectors, m, p))]
  }

  lemma StartCuttingInode(v1: Volume, i: Ino, m: nat)
    requires Tidy(v1) && i in v1.files && IsMap(v1.maps[i])
    ensures CuttingInode(v1, v1, i, m, m)
  {
    StartCutting(v1, i, m);
    LeftMore(v1.files[i].sectors, m, m);
    assert v1.files == v1.files[i := v1.files[i]];
  }

  function ClearSector(v: Volume, i: Ino, k: nat): Volume
    requires i in v.files
  {
    if k < |v.files[i].sectors| then SetSector(v, i, k, 0) else v
  }

  lemma CutMoreInode(v1: Volume, v: Volume, i: Ino, m: nat, p: nat)
    requires CuttingInode(v1, v, i, m, p) && p < 141 && v1.maps[i].all[p] != 0
    ensures i in v.maps && IsMap(v.maps[i]) && v.base < Place(v.maps[i], p) < v.base + |v.bits| && |v.saved| == |v.bits|
    ensures CuttingInode(v1, ClearSector(Free(v, i, p), i, p), i, m, p + 1)
  {
    CutMore(v1, v, i, m, p);
    LeftMore(v1.files[i].sectors, m, p);
  }

  /** A file that still needs it: the table is written without the blocks given
      back. */
  lemma CutIndirect(v1: Volume, v: Volume, i: Ino, m: nat, n: nat)
    requires InFlight(v1, i, n, false) && 12 < m <= n <= 140 && Cutting(v1, v, i, m, n) && v.files == v1.files
    ensures v.maps[i].index == v1.maps[i].index < |v.disk|
    ensures var u := Write(v, v.maps[i].index, Packed(v.maps[i].all[12..140]));
            CutDone(v1, u, i, m) && B.CountFree(u.bits) == B.CountFree(v1.bits) + Taken(n) - Taken(m)
  {
    CutEnd(v1.maps[i], n, m);
    var m1 := v1.maps[i];
    assert Place(m1, INDEX) == m1.index;
    assert v1.own[m1.index] == (i, INDEX);
    WriteOthers(v1, i, m1.index, Packed(v.maps[i].all[12..140]));
    WordsOfPacked(v.maps[i].all[12..140]);
    CutShaped(m1, n, m);
    forall k | 0 <= k < 140 && m1.all[k] != 0
      ensures m1.all[k] != m1.index
    {
      assert Place(m1, k) == m1.all[k];
      PlacesDiffer(v1, i, INDEX, k);
    }
    assert v1.files[i].sectors == m1.all[..12] + [m1.index];
    assert m1.all[..12] == v.maps[i].all[..12];
  }

  /** The bytes of a file cut at `offset`, if what follows in the last block has
      been zeroed. */
  lemma CutBytes(m0: Image, m1: Image, m: Image, offset: nat, n: nat)
    requires |m0| == 140 && |m1| == 140 && |m| == 140 && offset <= 71680 && n == BlocksFor(offset)
    requires forall k :: 0 <= k < 140 ==> m[k] == if k < n then m1[k] else ZERO
    requires Overlaid(m0, m1, offset, Zeros(512 * n - offset))
    ensures ZeroFrom(m, offset)
    ensures forall j :: 0 <= j < offset ==> ByteAt(m, j) == ByteAt(m0, j)
  {
    forall j | 0 <= j < 71680
      ensures ByteAt(m, j) == if j < offset then ByteAt(m0, j) else 0
    {
      var k, r := j / 512, j % 512;
      assert j == 512 * k + r;
      if k < n { assert ByteAt(m, j) == ByteAt(m1, j); }
    }
  }

  ghost predicate CutFrom(v0: Volume, v1: Volume, i: Ino, offset: nat) {
    && Valid(v0) && i in v0.files && offset < v0.files[i].size
    && IsMap(v0.maps[i]) && OnDisk(v0.disk, v0.maps[i])
    && InFlight(v1, i, BlocksFor(v0.files[i].size), false) && Extended(v0, v1, i, 0)
    && Overlaid(Img(v0, i), Img(v1, i), offset, Zeros(512 * BlocksFor(offset) - offset))
  }

  /** The blocks from `offset` on given back, and the map on the disk. */
  ghost predicate CutDone(v1: Volume, v: Volume, i: Ino, m: nat) {
    && Tidy(v) && |v.disk| == |v1.disk| && OthersSame(v1, v, i)
    && i in v1.files && i in v1.maps && i in v.files && IsMap(v1.maps[i])
    && v.maps == v1.maps[i := Cut(v1.maps[i], m)]
    && v.files == v1.files[i := v.files[i]]
    && OnDisk(v.disk, v.maps[i]) && OnDisk(v1.disk, v1.maps[i]) && Stored(v.disk, v.files[i].sectors, v.maps[i])
    && (forall k :: 0 <= k < m && k < 140 ==> v.disk[v1.maps[i].all[k]] == v1.disk[v1.maps[i].all[k]])
  }

  lemma CutImage(v1: Volume, v: Volume, i: Ino, m: nat, n: nat)
    requires CutDone(v1, v, i, m) && Shaped(v1.maps[i], n) && m <= n <= 140
    ensures |Img(v, i)| == 140
    ensures forall k :: 0 <= k < 140 ==> Img(v, i)[k] == if k < m then Img(v1, i)[k] else ZERO
  {}

  lemma CutFile(v0: Volume, v1: Volume, v: Volume, i: Ino, offset: nat)
    requires CutFrom(v0, v1, i, offset) && CutDone(v1, v, i, BlocksFor(offset))
    ensures FileOk(v.disk, v.files[i].(size := offset), v.maps[i])
    ensures Bytes(Img(v, i), offset) == Data(v0, i)[..offset]
  {
    CutShaped(v1.maps[i], BlocksFor(v0.files[i].size), BlocksFor(offset));
    CutContents(v0, v1, v, i, offset);
    DataFromMap(v0, i);
  }

  lemma CutContents(v0: Volume, v1: Volume, v: Volume, i: Ino, offset: nat)
    requires CutFrom(v0, v1, i, offset) && CutDone(v1, v, i, BlocksFor(offset))
    ensures ZeroFrom(Img(v, i), offset)
    ensures forall j :: 0 <= j < offset ==> ByteAt(Img(v, i), j) == ByteAt(Img(v0, i), j)
  {
    CutImage(v1, v, i, BlocksFor(offset), BlocksFor(v0.files[i].size));
    CutBytes(Img(v0, i), Img(v1, i), Img(v, i), offset, BlocksFor(offset));
  }

  lemma CutOthers(v0: Volume, v1: Volume, v: Volume, i: Ino, m: nat)
    requires Extended(v0, v1, i, 0) && CutDone(v1, v, i, m)
    ensures OneChanged(v0, v, i)
  {
    SameAfterBoth(v0, v1, v, i);
  }

  lemma CutSettles(v0: Volume, v1: Volume, v: Volume, i: Ino, offset: nat)
    requires CutFrom(v0, v1, i, offset) && CutDone(v1, v, i, BlocksFor(offset))
    ensures Settled(v0, Resized(v, i, offset), i, Data(v0, i)[..offset])
  {
    CutFile(v0, v1, v, i, offset);
    CutOthers(v0, v1, v, i, BlocksFor(offset));
    SettleResized(v0, v, i, offset, Data(v0, i)[..offset]);
  }

  lemma SettleResized(v0: Volume, v: Volume, i: Ino, size: nat, bytes: seq<Byte>)
    requires Valid(v0) && OneChanged(v0, v, i)
    requires FileOk(v.disk, v.files[i].(size := size), v.maps[i]) && Bytes(Img(v, i), size) == bytes
    ensures Settled(v0, Resized(v, i, size), i, bytes)
  {
    ResizedToo(v0, v, i, size);
    Settle(v0, Resized(v, i, size), i, bytes);
  }

  lemma SameAfterBoth(v0: Volume, v1: Volume, u: Volume, i: Ino)
    requires |v0.disk| == |v1.disk| == |u.disk| && OthersSame(v0, v1, i) && OthersSame(v1, u, i)
    requires forall j :: j in v0.maps && j != i ==> j in v1.maps && v1.maps[j] == v0.maps[j]
    ensures OthersSame(v0, u, i)
  {
    forall j, x: nat | j in v0.maps && j != i
      ensures SameAt(v0.disk, u.disk, v0.maps[j], x)
    {
      assert v1.maps[j] == v0.maps[j];
      assert SameAt(v0.disk, v1.disk, v0.maps[j], x) && SameAt(v1.disk, u.disk, v1.maps[j], x);
    }
    FixedTwice(v0, v1, u);
  }

  // ---------- The whole call ----------

  /** A failed ASSERT stops the machine. */
  datatype Outcome = Panic | Ret(value: int)

  /** What file_remove_some_content promises.  A removal that reaches the end of
      the file cuts it at `offset`, any other zeroes the range; but an empty range
      inside the file panics, as memset does not take the size 0. */
  ghost predicate RemoveResult(v0: Volume, u: Volume, i: Ino, offset: nat, size: nat, r: Outcome)
    requires Valid(v0) && i in v0.files
  {
    var end := v0.files[i].size;
    if offset >= end then r == Ret(-1) && u == v0
    else if offset + size >= end then
      && r == Ret(offset) && Settled(v0, u, i, Data(v0, i)[..offset])
      && IsMap(v0.maps[i]) && u.maps == v0.maps[i := Cut(v0.maps[i], BlocksFor(offset))]
      && B.CountFree(u.bits) == B.CountFree(v0.bits) + Taken(BlocksFor(end)) - Taken(BlocksFor(offset))
      && |u.bits| == |v0.bits|
    else if size == 0 then r == Panic
    else r == Ret(end) && Settled(v0, u, i, Written(Data(v0, i), offset, Zeros(size))) && u.maps == v0.maps && u.bits == v0.bits
  }

  lemma CutResult(v0: Volume, v1: Volume, v: Volume, i: Ino, offset: nat, size: nat)
    requires CutFrom(v0, v1, i, offset) && CutDone(v1, v, i, BlocksFor(offset)) && v1.maps == v0.maps
    requires offset + size >= v0.files[i].size && v1.bits == v0.bits && |v.bits| == |v0.bits| && v.base == v0.base
    requires B.CountFree(v.bits) == B.CountFree(v1.bits) + Taken(BlocksFor(v0.files[i].size)) - Taken(BlocksFor(offset))
    ensures RemoveResult(v0, Resized(v, i, offset), i, offset, size, Ret(offset))
  {
    CutSettles(v0, v1, v, i, offset);
  }

  // ---------- Zeroing ----------

  /** In the middle of zeroing `size` bytes from `offset`, with `done` zeroed. */
  ghost predicate Zeroing(v0: Volume, v: Volume, i: Ino, offset: nat, size: nat, done: nat) {
    && Valid(v0) && i in v0.files && offset + size <= 71680 && done <= size
    && IsMap(v0.maps[i]) && OnDisk(v0.disk, v0.maps[i]) && v == v0.(disk := v.disk)
    && InFlight(v, i, BlocksFor(v0.files[i].size), false) && Extended(v0, v, i, 0)
    && Overlaid(Img(v0, i), Img(v, i), offset, Zeros(size)[..done])
  }

  lemma StartZeroing(v0: Volume, i: Ino, offset: nat, size: nat)
    requires Valid(v0) && i in v0.files && offset + size <= 71680
    ensures Zeroing(v0, v0, i, offset, size, 0)
  {
    TidyOnDisk(v0, i);
    OverlaidNothing(Img(v0, i), offset);
  }

  lemma ZeroMore(v0: Volume, v: Volume, w: Volume, i: Ino, offset: nat, size: nat, done: nat, k: nat, at: nat, n: nat)
    requires Zeroing(v0, v, i, offset, size, done) && done + n <= size
    requires k < 140 && at + n <= 512 && 512 * k + at == offset + done
    requires w == v.(disk := w.disk)
    requires InFlight(w, i, BlocksFor(v0.files[i].size), false) && Extended(v, w, i, 0)
    requires PutIn(Img(v, i), Img(w, i), k, at, Zeros(n))
    ensures Zeroing(v0, w, i, offset, size, done + n)
  {
    assert Zeros(size)[done..done + n] == Zeros(n);
    OverlayMore(Img(v0, i), Img(v, i), offset, Zeros(size), done, k, at, n);
    ExtendedTwice(v0, v, w, i, 0, 0);
  }

  lemma ZeroedTail(v0: Volume, v: Volume, i: Ino, offset: nat)
    requires Zeroing(v0, v, i, offset, 512 * BlocksFor(offset) - offset, 512 * BlocksFor(offset) - offset)
    requires offset < v0.files[i].size
    ensures CutFrom(v0, v, i, offset)
  {
    var n := 512 * BlocksFor(offset) - offset;
    assert Zeros(n)[..n] == Zeros(n);
  }

  lemma InBlock(offset: nat)
    ensures 512 * (offset / 512) + offset % 512 == offset
    ensures BlocksFor(offset) == offset / 512 + (if offset % 512 == 0 then 0 else 1)
  {}

  lemma ZeroResult(v0: Volume, v: Volume, i: Ino, offset: nat, size: nat)
    requires Zeroing(v0, v, i, offset, size, size) && offset + size < v0.files[i].size && size > 0
    ensures RemoveResult(v0, v, i, offset, size, Ret(v0.files[i].size))
  {
    assert Zeros(size)[..size] == Zeros(size);
    WriteSettles(v0, v, i, BlocksFor(v0.files[i].size), 0, offset, Zeros(size));
    assert v.files == v.files[i := v.files[i]];
  }

  lemma CutBackMaps(maps0: map<Ino, FileMap>, maps1: map<Ino, FileMap>, i: Ino, n0: nat, n1: nat)
    requires i in maps0 && i in maps1 && maps1 == maps0[i := maps1[i]] && Keeps(maps0[i], maps1[i])
    requires Shaped(maps0[i], n0) && Shaped(maps1[i], n1) && n0 <= n1 <= 140
    ensures maps1[i := Cut(maps1[i], n0)] == maps0
  {
    CutKept(maps0[i], n0, maps1[i], n1);
  }

  lemma SettledTwice(v0: Volume, v1: Volume, v2: Volume, i: Ino, b1: seq<Byte>, b2: seq<Byte>)
    requires Settled(v0, v1, i, b1) && Settled(v1, v2, i, b2)
    requires i in v1.maps && v1.maps == v0.maps[i := v1.maps[i]]
    ensures OthersSame(v0, v2, i)
  {
    SettledOthers(v0, v1, i, b1);
    SettledOthers(v1, v2, i, b2);
    OtherMaps(v0.maps, v1.maps, i);
    SameAfterBoth(v0, v1, v2, i);
  }

  lemma SettledOthers(v0: Volume, u: Volume, i: Ino, bytes: seq<Byte>)
    requires Settled(v0, u, i, bytes)
    ensures |v0.disk| == |u.disk| && OthersSame(v0, u, i)
  {}

  lemma OtherMaps(maps0: map<Ino, FileMap>, maps1: map<Ino, FileMap>, i: Ino)
    requires i in maps1 && maps1 == maps0[i := maps1[i]]
    ensures forall j :: j in maps0 && j != i ==> j in maps1 && maps1[j] == maps0[j]
  {}

  lemma CutBack(v0: Volume, v1: Volume, v2: Volume, i: Ino, offset: nat, data: seq<Byte>, r: int)
    requires Valid(v0) && i in v0.files && v0.files[i].size < offset + |data| <= 71680
    requires WriteKeeps(v0.files[i].size, offset, |data|) && WriteResult(v0, v1, i, offset, data, r)
    requires var size := v0.files[i].size;
             RemoveResult(v1, v2, i, size, v1.files[i].size - size, Ret(size))
    ensures v2.bits == v0.bits && OthersSame(v0, v2, i)
    ensures Settled(v1, v2, i, Written(Data(v0, i), offset, data)[..v0.files[i].size])
  {
    CutBackMaps(v0.maps, v1.maps, i, BlocksFor(v0.files[i].size), BlocksFor(v1.files[i].size));
    BitsDetermined(v0.bits, v0.own, v2.bits, v2.own, v0.base, v0.kept, v0.maps);
    SettledTwice(v0, v1, v2, i, Written(Data(v0, i), offset, data), Data(v1, i)[..v0.files[i].size]);
  }
}
