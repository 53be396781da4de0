/** Files that come and go, and the blocks that directories take and write. */
module FileLives {
  import opened Sectors
  import opened BlockMaps
  import opened Volumes
  import opened FileWrites
  import opened FileCuts
  import B = Bitmaps

  function NoMap(): (m: FileMap)
    ensures Shaped(m, 0)
  {
    FileMap(seq(141, k => 0), 0)
  }

  /** inode_init's inode. */
  function NewInode(): (f: Inode)
    ensures f.size == 0 && f.sectors == seq(13, k => 0)
  {
    Inode(0, seq(13, k => 0))
  }

  function Created(v: Volume, i: Ino): Volume {
    v.(files := v.files[i := NewInode()], maps := v.maps[i := NoMap()])
  }

  function Dropped(v: Volume, i: Ino): Volume {
    v.(files := v.files - {i}, maps := v.maps - {i})
  }

  /** The files of `js` are those of `v`, byte for byte. */
  ghost predicate SameData(v: Volume, u: Volume, js: set<Ino>) {
    && Valid(v) && Valid(u)
    && forall j :: j in js ==> j in v.files && j in u.files && u.files[j] == v.files[j] && Data(u, j) == Data(v, j)
  }

  lemma SameDisk(v: Volume, u: Volume, js: set<Ino>)
    requires Valid(v) && Valid(u) && u.disk == v.disk
    requires forall j :: j in js ==> j in v.files && j in u.files && u.files[j] == v.files[j]
    ensures SameData(v, u, js)
  {}

  /** A new file is empty, takes no block and leaves all others alone. */
  lemma CreateSettles(v: Volume, i: Ino)
    requires Valid(v) && i !in v.files
    ensures SameData(v, Created(v, i), v.files.Keys) && Data(Created(v, i), i) == []
  {
    var u, m := Created(v, i), NoMap();
    CreateBooked(v, i);
    assert m.all[..12] + [m.index] == NewInode().sectors;
    forall j | j in u.files
      ensures FileOk(u.disk, u.files[j], u.maps[j])
    {
      if j != i { assert FileOk(v.disk, v.files[j], v.maps[j]); }
    }
    SameDisk(v, u, v.files.Keys);
  }

  lemma CreateBooked(v: Volume, i: Ino)
    requires Tidy(v) && i !in v.files
    ensures Tidy(Created(v, i))
  {}

  lemma DropTidy(v: Volume, i: Ino)
    requires Tidy(v) && i in v.files && Shaped(v.maps[i], 0)
    ensures Tidy(Dropped(v, i))
  {
    forall b | b in v.own
      ensures v.own[b].0 != i
    {
      assert Place(v.maps[v.own[b].0], v.own[b].1) == b;
    }
  }

  /** A file that has been cut to nothing has no block left to lose. */
  lemma DropSettles(v: Volume, i: Ino)
    requires Valid(v) && i in v.files && v.files[i].size == 0
    ensures SameData(v, Dropped(v, i), v.files.Keys - {i}) && Dropped(v, i).files.Keys == v.files.Keys - {i}
  {
    var u := Dropped(v, i);
    DropTidy(v, i);
    forall j | j in u.files
      ensures FileOk(u.disk, u.files[j], u.maps[j])
    {
      assert FileOk(v.disk, v.files[j], v.maps[j]);
    }
    SameDisk(v, u, v.files.Keys - {i});
  }

  // ---------- Removing a file ----------

  /** What the part of sys_remove after the erasing of the name does: the file is
      cut at 0, which does nothing to an empty one, and its inode goes. */
  ghost predicate FileRemoved(v: Volume, w: Volume, u: Volume, i: Ino) {
    WasCut(v, w, i) && u == Dropped(w, i)
  }

  ghost predicate WasCut(v: Volume, w: Volume, i: Ino) {
    Valid(v) && i in v.files && exists r :: RemoveResult(v, w, i, 0, v.files[i].size, r)
  }

  lemma CutBy(v: Volume, w: Volume, i: Ino, r: Outcome)
    requires Valid(v) && i in v.files && RemoveResult(v, w, i, 0, v.files[i].size, r)
    ensures WasCut(v, w, i)
  {}

  /** The file after the cut. */
  ghost predicate Emptied(v: Volume, w: Volume, i: Ino) {
    && Valid(v) && Valid(w) && i in v.files && w.files.Keys == v.files.Keys && w.files[i].size == 0
    && |w.disk| == |v.disk| && OthersSame(v, w, i)
    && (forall j :: j in w.files && j != i ==> w.files[j] == v.files[j] && Data(w, j) == Data(v, j))
    && B.CountFree(w.bits) == B.CountFree(v.bits) + Taken(BlocksFor(v.files[i].size))
  }

  lemma EmptiedFirst(v: Volume, w: Volume, i: Ino, r: Outcome)
    requires Valid(v) && i in v.files && RemoveResult(v, w, i, 0, v.files[i].size, r)
    ensures Emptied(v, w, i)
  {
    if v.files[i].size > 0 {
      SettledEmpty(v, w, i, Data(v, i)[..0]);
    }
  }

  /** What is left is a new inode. */
  lemma CutEmpties(v: Volume, w: Volume, i: Ino)
    requires WasCut(v, w, i)
    ensures Emptied(v, w, i) && w.files[i] == NewInode()
  {
    var r :| RemoveResult(v, w, i, 0, v.files[i].size, r);
    EmptiedFirst(v, w, i, r);
    EmptyIsNew(w, i);
  }

  lemma EmptyIsNew(v: Volume, i: Ino)
    requires Valid(v) && i in v.files && v.files[i].size == 0
    ensures v.files[i] == NewInode()
  {
    assert Shaped(v.maps[i], 0) && v.files[i].sectors == v.maps[i].all[..12] + [v.maps[i].index];
  }

  lemma SettledEmpty(v: Volume, w: Volume, i: Ino, none: seq<Byte>)
    requires Settled(v, w, i, none) && none == []
    ensures w.files[i].size == 0
  {
    assert |Data(w, i)| == 0;
  }

  lemma SameWithout(fs: map<Ino, Inode>, gs: map<Ino, Inode>, i: Ino)
    requires gs.Keys == fs.Keys && forall j :: j in gs && j != i ==> gs[j] == fs[j]
    ensures gs - {i} == fs - {i}
  {}

  lemma DropEmptied(v: Volume, w: Volume, i: Ino)
    requires Emptied(v, w, i)
    ensures var u := Dropped(w, i);
            && Valid(u) && u.files == v.files - {i} && OthersSame(v, u, i) && |u.disk| == |v.disk|
            && (forall j :: j in u.files ==> Data(u, j) == Data(v, j))
            && B.CountFree(u.bits) == B.CountFree(v.bits) + Taken(BlocksFor(v.files[i].size))
  {
    DropSettles(w, i);
    SameWithout(v.files, w.files, i);
  }

  /** All its blocks are free again, and no sector of another file or of a
      directory has changed. */
  lemma RemoveFileSettles(v: Volume, w: Volume, u: Volume, i: Ino)
    requires FileRemoved(v, w, u, i)
    ensures Valid(u) && u.files == v.files - {i} && OthersSame(v, u, i) && |u.disk| == |v.disk|
    ensures forall j :: j in u.files ==> Data(u, j) == Data(v, j)
    ensures B.CountFree(u.bits) == B.CountFree(v.bits) + Taken(BlocksFor(v.files[i].size))
  {
    CutEmpties(v, w, i);
    DropEmptied(v, w, i);
  }

  // ---------- Directories' blocks ----------

  /** A directory takes block b, and its first sector is written. */
  function DirTaken(v: Volume, b: Word, s: Sector): Volume
    requires v.base <= b < |v.disk| == v.base + |v.bits| && |v.saved| == |v.bits|
  {
    Write(Sync(v.(bits := v.bits[b - v.base := true], kept := v.kept + {b}), b), b, s)
  }

  /** To write a block that no file has changes no file. */
  lemma OutsideFiles(v: Volume, b: nat, s: Sector, j: Ino)
    requires Valid(v) && 0 < b < |v.disk| && b !in v.own && j in v.files
    ensures FileOk(v.disk[b := s], v.files[j], v.maps[j])
    ensures HasContents(v.disk[b := s], v.files[j], v.maps[j]) && Contents(v.disk[b := s], v.files[j]) == Data(v, j)
  {
    var m := v.maps[j];
    forall k | 0 <= k <= INDEX && Place(m, k) != 0
      ensures v.disk[b := s][Place(m, k)] == v.disk[Place(m, k)]
    {
      Unowned(v, b, j, k);
    }
    FileFrame(v.disk, v.disk[b := s], v.files[j], m);
  }

  /** A volume that differs from v in the bitmap, and in one block that no file
      has. */
  lemma OutsideData(v: Volume, u: Volume, b: nat, s: Sector)
    requires Valid(v) && 0 < b < |v.disk| && b !in v.own && Tidy(u)
    requires u.disk == v.disk[b := s] && u.files == v.files && u.maps == v.maps
    ensures SameData(v, u, v.files.Keys)
  {
    forall j | j in u.files
      ensures FileOk(u.disk, u.files[j], u.maps[j])
    {
      OutsideFiles(v, b, s, j);
    }
    forall j | j in u.files
      ensures Data(u, j) == Data(v, j)
    {
      OutsideFiles(v, b, s, j);
    }
  }

  /** The first free block goes to a directory; no file and no other directory's
      block changes. */
  lemma DirTakeSettles(v: Volume, s: Sector)
    requires Valid(v) && B.CountFree(v.bits) > 0
    ensures var b := FreeBlock(v);
            && b !in v.kept && SameData(v, DirTaken(v, b, s), v.files.Keys) && DirTaken(v, b, s).files == v.files
            && B.CountFree(DirTaken(v, b, s).bits) + 1 == B.CountFree(v.bits)
  {
    var b := FreeBlock(v);
    DirTakenTidy(v, b, s);
    B.CountFreeUpdate(v.bits, b - v.base);
    OutsideData(v, DirTaken(v, b, s), b, s);
  }

  lemma DirTakenTidy(v: Volume, b: Word, s: Sector)
    requires Tidy(v) && v.base <= b < |v.disk| && !v.bits[b - v.base]
    ensures b !in v.own && b !in v.kept && Tidy(DirTaken(v, b, s))
    ensures DirTaken(v, b, s).bits == v.bits[b - v.base := true]
  {
    KeepBlock(v.bits, v.base, v.own, v.kept, v.maps, b);
    SyncedOnce(v.bits, b - v.base, true);
  }

  /** A directory writes one of its blocks. */
  lemma DirWriteSettles(v: Volume, b: Word, s: Sector)
    requires Valid(v) && b in v.kept
    ensures b < |v.disk| && SameData(v, Write(v, b, s), v.files.Keys)
  {
    OutsideData(v, Write(v, b, s), b, s);
  }
}
