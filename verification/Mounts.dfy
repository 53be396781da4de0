/** Files and the inode table together: what memory holds of a file is what a
    later mount reads back from the disk. */
module Mounts {
  import opened Sectors
  import opened BlockMaps
  import opened Volumes
  import opened FileWrites
  import opened FileCuts
  import opened FileLives
  import B = Bitmaps
  import FS = FileSystems
  import I = Inodes

  /** A record of the table describes a file. */
  predicate Records(r: I.Record, f: Inode) {
    r.size == f.size && r.sectors == f.sectors
  }

  /** The table on the disk describes every file, under its number. */
  ghost predicate OnTable(v: Volume, disk: seq<I.Record>) {
    |disk| == I.COUNT && forall i :: i in v.files ==> i < I.COUNT && disk[i].no == i && Records(disk[i], v.files[i])
  }

  /** And so does what is open, where a file is open. */
  ghost predicate InCache(v: Volume, c: I.Cache) {
    && I.CacheOk(c) && OnTable(v, c.disk)
    && forall i :: i in v.files && I.Has(c.open, i) ==> Records(c.open[I.Find(c.open, i)], v.files[i])
  }

  /** The partition mounted again: bitmap and inodes come from the disk. */
  function Mounted(v: Volume, disk: seq<I.Record>): Volume
    requires forall i :: i in v.files ==> i < |disk|
  {
    v.(bits := v.saved, files := map i | i in v.files :: Inode(disk[i].size, disk[i].sectors))
  }

  /** Then nothing is lost. */
  lemma MountBack(v: Volume, disk: seq<I.Record>)
    requires Valid(v) && OnTable(v, disk)
    ensures Mounted(v, disk) == v
  {
    assert Mounted(v, disk).files == v.files;
  }

  /** The inode_sync at the end of a call that has made `f` of file `i`. */
  function Saved(c: I.Cache, i: nat, f: Inode): I.Cache
    requires |c.disk| == I.COUNT && I.Has(c.open, i) && f.size < 0x1_0000_0000
  {
    var changed := I.Changed(c, i, f.size, f.sectors);
    changed.(disk := I.Stored(c.disk, changed.open[I.Find(c.open, i)]))
  }

  /** The slot of the open inode has it without count, flag and links. */
  predicate SavedClean(c: I.Cache, i: nat)
    requires |c.disk| == I.COUNT
  {
    I.Has(c.open, i) && I.Cleaned(c.open[I.Find(c.open, i)], c.disk[i % 256])
  }

  lemma SavedIsClean(c: I.Cache, i: nat, f: Inode)
    requires I.CacheOk(c) && I.Has(c.open, i) && f.size < 0x1_0000_0000 && |f.sectors| == 13
    ensures SavedClean(Saved(c, i, f), i)
    ensures I.Writable(c.disk) ==> I.Writable(Saved(c, i, f).disk)
  {
    SavedRecords(c, i, f);
  }

  lemma SavedRecords(c: I.Cache, i: nat, f: Inode)
    requires I.CacheOk(c) && I.Has(c.open, i) && f.size < 0x1_0000_0000 && |f.sectors| == 13
    ensures I.CacheOk(Saved(c, i, f)) && i < I.COUNT
    ensures forall j :: I.Find(Saved(c, i, f).open, j) == I.Find(c.open, j)
    ensures Records(Saved(c, i, f).open[I.Find(c.open, i)], f)
    ensures forall k :: 0 <= k < |c.open| && k != I.Find(c.open, i) ==> Saved(c, i, f).open[k] == c.open[k]
    ensures Records(Saved(c, i, f).disk[I.Slot(i)], f) && Saved(c, i, f).disk[I.Slot(i)].no == i
    ensures forall k :: 0 <= k < I.COUNT && k != I.Slot(i) ==> Saved(c, i, f).disk[k] == c.disk[k]
  {
    var x := I.Find(c.open, i);
    var r := c.open[x].(size := f.size, sectors := f.sectors);
    I.ChangeSeen(c, i, f.size, f.sectors, i);
    forall j
      ensures I.Find(c.open[x := r], j) == I.Find(c.open, j)
    {
      I.FindChanged(c.open, x, r, j);
    }
  }

  /** After a call on one file and its inode_sync the table describes every file
      again exactly when the file's number fits in eight bits, or there was
      nothing to save and the slot written describes no file. */
  lemma SaveExactly(v: Volume, u: Volume, c: I.Cache, i: Ino)
    requires InCache(v, c) && i in v.files && I.Has(c.open, i)
    requires i in u.files && u.files == v.files[i := u.files[i]]
    requires u.files[i].size < 0x1_0000_0000 && |u.files[i].sectors| == 13
    ensures InCache(u, Saved(c, i, u.files[i])) <==>
            || i < 256
            || (u.files[i] == v.files[i] && I.Slot(i) !in u.files)
  {
    SavedRecords(c, i, u.files[i]);
    SavedOpen(v, u, c, i);
    SavedTable(v, u, c.disk, Saved(c, i, u.files[i]).disk, i);
  }

  /** The open copies describe their files; */
  lemma SavedOpen(v: Volume, u: Volume, c: I.Cache, i: Ino)
    requires InCache(v, c) && i in v.files && I.Has(c.open, i)
    requires i in u.files && u.files == v.files[i := u.files[i]]
    requires u.files[i].size < 0x1_0000_0000 && |u.files[i].sectors| == 13
    ensures InCache(u, Saved(c, i, u.files[i])) <==> OnTable(u, Saved(c, i, u.files[i]).disk)
  {
    var s := Saved(c, i, u.files[i]);
    SavedRecords(c, i, u.files[i]);
    forall j | j in u.files && I.Has(s.open, j)
      ensures Records(s.open[I.Find(s.open, j)], u.files[j])
    {
      if j != i { assert I.Find(c.open, j) != I.Find(c.open, i); }
    }
  }

  /** and what the table describes depends on the slot written. */
  lemma SavedTable(v: Volume, u: Volume, disk: seq<I.Record>, disk': seq<I.Record>, i: Ino)
    requires OnTable(v, disk) && |disk'| == |disk| && i in v.files && i in u.files && u.files == v.files[i := u.files[i]]
    requires Records(disk'[I.Slot(i)], u.files[i]) && disk'[I.Slot(i)].no == i
    requires forall k :: 0 <= k < I.COUNT && k != I.Slot(i) ==> disk'[k] == disk[k]
    ensures OnTable(u, disk') <==>
            || i < 256
            || (u.files[i] == v.files[i] && I.Slot(i) !in u.files)
  {
    if i < 256 {
      assert forall j :: j in u.files && j != i ==> disk'[j] == disk[j];
    } else {
      assert disk'[i] == disk[i];
    }
  }

  lemma SizesFit(u: Volume, i: Ino)
    requires Valid(u) && i in u.files
    ensures u.files[i].size < 0x1_0000_0000 && |u.files[i].sectors| == 13
  {
    assert FileOk(u.disk, u.files[i], u.maps[i]);
  }

  lemma OneFileChanged(fs: map<Ino, Inode>, gs: map<Ino, Inode>, i: Ino)
    requires gs.Keys == fs.Keys && i in gs && forall j :: j in gs && j != i ==> gs[j] == fs[j]
    ensures gs == fs[i := gs[i]]
  {}

  /** A call that has settled a file of a small number survives: after its
      inode_sync a mount from the disk finds what the call has left. */
  lemma CallSurvives(v: Volume, u: Volume, c: I.Cache, i: Ino, bytes: seq<Byte>)
    requires InCache(v, c) && I.Has(c.open, i) && i < 256 && Settled(v, u, i, bytes)
    ensures u.files[i].size < 0x1_0000_0000 && InCache(u, Saved(c, i, u.files[i]))
    ensures forall j :: j in u.files ==> j < I.COUNT
    ensures var w := Mounted(u, Saved(c, i, u.files[i]).disk);
            w == u && Data(w, i) == bytes
  {
    SizesFit(u, i);
    OneFileChanged(v.files, u.files, i);
    SaveExactly(v, u, c, i);
    MountBack(u, Saved(c, i, u.files[i]).disk);
  }

  /** So a guarded write survives, */
  lemma WriteSurvives(v: Volume, u: Volume, c: I.Cache, i: Ino, offset: nat, data: seq<Byte>, r: int)
    requires Valid(v) && InCache(v, c) && i in v.files && I.Has(c.open, i) && i < 256
    requires offset + |data| <= 71680 && WriteKeeps(v.files[i].size, offset, |data|)
    requires WriteResult(v, u, i, offset, data, r)
    ensures u.files[i].size < 0x1_0000_0000 && InCache(u, Saved(c, i, u.files[i]))
    ensures forall j :: j in u.files ==> j < I.COUNT
    ensures var w := Mounted(u, Saved(c, i, u.files[i]).disk);
            w == u && Data(w, i) == Written(Data(v, i), offset, data)
  {
    CallSurvives(v, u, c, i, Written(Data(v, i), offset, data));
  }

  /** and a removal that reaches the file's end. */
  lemma CutSurvives(v: Volume, u: Volume, c: I.Cache, i: Ino, offset: nat, size: nat, r: Outcome)
    requires Valid(v) && InCache(v, c) && i in v.files && I.Has(c.open, i) && i < 256
    requires offset < v.files[i].size <= offset + size && RemoveResult(v, u, i, offset, size, r)
    ensures i in u.files && u.files[i].size < 0x1_0000_0000 && InCache(u, Saved(c, i, u.files[i]))
    ensures forall j :: j in u.files ==> j < I.COUNT
    ensures var w := Mounted(u, Saved(c, i, u.files[i]).disk);
            w == u && Data(w, i) == Data(v, i)[..offset]
  {
    CallSurvives(v, u, c, i, Data(v, i)[..offset]);
  }

  // ---------- Removing a file ----------

  /** What sys_remove does to table and cache after the name is erased: it opens
      the inode; the cut, if there is something to cut, saves it; its record is
      blanked, and it leaves the list. */
  function Deleted(c: I.Cache, i: nat, size: nat): I.Cache
    requires |c.disk| == I.COUNT && i < I.COUNT && I.Opens(c, i) < 0xffff_ffff
    requires I.Has(c.open, i) || c.disk[i].no == i
  {
    var o := I.Opened(c, i);
    OpenedHas(c, i);
    Blanked(CutSaved(o, i, size), i, I.Find(o.open, i))
  }

  function CutSaved(o: I.Cache, i: nat, size: nat): I.Cache
    requires |o.disk| == I.COUNT && I.Has(o.open, i)
  {
    if size > 0 then Saved(o, i, NewInode()) else o
  }

  function Blanked(s: I.Cache, i: nat, k: nat): I.Cache
    requires i < |s.disk| && k < |s.open|
  {
    I.Cache(s.disk[i := I.Blank()], I.Removed(s.open, k))
  }

  lemma OpenedHas(c: I.Cache, i: nat)
    requires |c.disk| == I.COUNT && i < I.COUNT && I.Opens(c, i) < 0xffff_ffff
    requires I.Has(c.open, i) || c.disk[i].no == i
    ensures |I.Opened(c, i).disk| == I.COUNT && I.Has(I.Opened(c, i).open, i)
    ensures |Saved(I.Opened(c, i), i, NewInode()).open| == |I.Opened(c, i).open|
  {
    if I.Has(c.open, i) {
      var k := I.Find(c.open, i);
      I.FindChanged(c.open, k, c.open[k].(opens := I.Opens(c, i) + 1), i);
    } else {
      I.FindPushed(c.open, c.disk[i].(opens := 1), i);
    }
  }

  /** The table and the open inodes once file `i` is opened for removal. */
  lemma OpenedStill(v: Volume, c: I.Cache, i: Ino)
    requires InCache(v, c) && i in v.files && I.Opens(c, i) < 0xffff_ffff
    ensures InCache(v, I.Opened(c, i)) && I.Has(I.Opened(c, i).open, i) && I.Opened(c, i).disk == c.disk
  {
    var o := I.Opened(c, i);
    OpenedHas(c, i);
    I.OpenTransparent(c, i, i);
    forall j | j in v.files && I.Has(o.open, j)
      ensures Records(o.open[I.Find(o.open, j)], v.files[j])
    {
      if I.Has(c.open, i) {
        var k := I.Find(c.open, i);
        I.FindChanged(c.open, k, c.open[k].(opens := I.Opens(c, i) + 1), j);
      } else {
        I.FindPushed(c.open, c.disk[i].(opens := 1), j);
      }
    }
  }

  /** After the removal of a file the table describes every other file, and no
      open copy is out of date, exactly when the file's number fits in eight bits,
      or it was empty, or no file has the number of the slot that the cut wrote. */
  lemma RemoveExactly(v: Volume, u: Volume, c: I.Cache, i: Ino)
    requires InCache(v, c) && i in v.files && I.Opens(c, i) < 0xffff_ffff && u.files == v.files - {i}
    ensures InCache(u, Deleted(c, i, v.files[i].size)) <==>
            i < 256 || v.files[i].size == 0 || I.Slot(i) !in u.files
  {
    var o, size := I.Opened(c, i), v.files[i].size;
    OpenedHas(c, i);
    OpenedStill(v, c, i);
    var s := CutSaved(o, i, size);
    if size > 0 { SavedRecords(o, i, NewInode()); }
    var d := Deleted(c, i, size);
    DeletedOpen(v, u, o, s, d, i);
    DeletedTable(v, u, c.disk, s.disk, i, size > 0);
  }

  /** The removed file's inode is not open any more, its record is blank, and the
      others are open as before. */
  lemma DeletedGone(v: Volume, c: I.Cache, i: Ino, size: nat)
    requires InCache(v, c) && i in v.files && I.Opens(c, i) < 0xffff_ffff
    ensures var d := Deleted(c, i, size);
            && |d.disk| == I.COUNT && d.disk[i] == I.Blank() && !I.Has(d.open, i)
            && forall j :: j != i ==> (I.Has(d.open, j) <==> I.Has(c.open, j))
  {
    var o := I.Opened(c, i);
    OpenedHas(c, i);
    OpenedStill(v, c, i);
    var s := CutSaved(o, i, size);
    if size > 0 { SavedRecords(o, i, NewInode()); }
    var k := I.Find(o.open, i);
    I.RemovedGone(s.open, k);
    forall j | j != i
      ensures I.Has(Deleted(c, i, size).open, j) <==> I.Has(c.open, j)
    {
      I.FindRemoved(s.open, k, j);
      OpenedOthers(c, i, j);
    }
  }

  lemma OpenedOthers(c: I.Cache, i: nat, j: nat)
    requires I.CacheOk(c) && i < I.COUNT && I.Opens(c, i) < 0xffff_ffff && j != i
    requires I.Has(c.open, i) || c.disk[i].no == i
    ensures I.Has(I.Opened(c, i).open, j) <==> I.Has(c.open, j)
  {
    if I.Has(c.open, i) {
      var k := I.Find(c.open, i);
      I.FindChanged(c.open, k, c.open[k].(opens := I.Opens(c, i) + 1), j);
    } else {
      I.FindPushed(c.open, c.disk[i].(opens := 1), j);
    }
  }

  lemma DeletedTable(v: Volume, u: Volume, disk: seq<I.Record>, saved: seq<I.Record>, i: Ino, written: bool)
    requires OnTable(v, disk) && |saved| == |disk| && i in v.files && u.files == v.files - {i}
    requires if written then saved[I.Slot(i)].no == i
                             && forall k :: 0 <= k < I.COUNT && k != I.Slot(i) ==> saved[k] == disk[k]
             else saved == disk
    ensures OnTable(u, saved[i := I.Blank()]) <==> i < 256 || !written || I.Slot(i) !in u.files
  {
    if written && i >= 256 && I.Slot(i) in u.files {
      assert saved[i := I.Blank()][I.Slot(i)].no == i;
    } else {
      forall j | j in u.files
        ensures saved[i := I.Blank()][j] == disk[j]
      {}
    }
  }

  /** The open copies of the other files are still those. */
  lemma DeletedOpen(v: Volume, u: Volume, o: I.Cache, s: I.Cache, d: I.Cache, i: Ino)
    requires InCache(v, o) && I.CacheOk(s) && i in v.files && u.files == v.files - {i} && I.Has(o.open, i)
    requires |s.open| == |o.open| && (forall j :: I.Find(s.open, j) == I.Find(o.open, j))
    requires forall k :: 0 <= k < |o.open| && k != I.Find(o.open, i) ==> s.open[k] == o.open[k]
    requires i < |s.disk| && d == Blanked(s, i, I.Find(o.open, i))
    ensures I.CacheOk(d) && (InCache(u, d) <==> OnTable(u, d.disk))
  {
    var k := I.Find(o.open, i);
    I.RemovedGone(s.open, k);
    forall j | j in u.files && I.Has(d.open, j)
      ensures Records(d.open[I.Find(d.open, j)], u.files[j])
    {
      I.FindRemoved(s.open, k, j);
      assert I.Find(o.open, j) != k;
    }
  }

  /** A removed file of a small number takes nobody's record with it: a mount finds
      all others. */
  lemma RemovalSurvives(v: Volume, w: Volume, u: Volume, c: I.Cache, i: Ino)
    requires FileRemoved(v, w, u, i) && InCache(v, c) && I.Opens(c, i) < 0xffff_ffff && i < 256
    ensures Valid(u) && InCache(u, Deleted(c, i, v.files[i].size)) && i !in u.files
    ensures forall j :: j in u.files ==> j < I.COUNT
    ensures Mounted(u, Deleted(c, i, v.files[i].size).disk) == u
  {
    RemoveFileSettles(v, w, u, i);
    RemoveExactly(v, u, c, i);
    MountBack(u, Deleted(c, i, v.files[i].size).disk);
  }

  // ---------- The whole calls ----------

  /** file_write to its end: the open inode has the new size and block numbers,
      and inode_sync writes it. */
  method FileWriteAndSync(fs: FS.FileSystem, cache: I.InodeCache, i: Ino, data: seq<Byte>, offset: nat) returns (r: int)
    requires Valid(fs.State()) && cache.Valid() && i in fs.files && I.Has(cache.open, i)
    requires offset + |data| < 0x1_0000_0000
    requires offset + |data| <= 71680 ==> B.CountFree(fs.bits) >= Needed(fs.files[i].size, offset, |data|)
    modifies fs`bits, fs`own, fs`maps, fs`saved, fs`disk, fs`files, cache`open, cache`table
    ensures WriteResult(old(fs.State()), fs.State(), i, offset, data, r)
    ensures offset + |data| > 71680 ==> |cache.table| == 608 && cache.State() == old(cache.State())
    ensures offset + |data| <= 71680 ==>
              && i in fs.files && fs.files[i].size < 0x1_0000_0000 && |cache.table| == 608
              && cache.State() == Saved(old(cache.State()), i, fs.files[i])
              && SavedClean(cache.State(), i)
    ensures |cache.table| == 608 && (old(I.Writable(I.Records(cache.table))) ==> I.Writable(I.Records(cache.table)))
  {
    r := fs.FileWrite(i, data, offset);
    if offset + |data| > 71680 {
      return;
    }
    var k := cache.Search(i);
    SavedIsClean(cache.State(), i, fs.files[i]);
    SaveOpen(cache, k, fs.files[i].size, fs.files[i].sectors);
  }

  /** sys_remove to its end, once the name is erased. */
  method FileRemoveAndSync(fs: FS.FileSystem, cache: I.InodeCache, i: Ino) returns (ghost cut: Volume)
    requires Valid(fs.State()) && cache.Valid() && i in fs.files && InCache(fs.State(), cache.State())
    requires I.Opens(cache.State(), i) < 0xffff_ffff
    modifies fs`bits, fs`own, fs`maps, fs`saved, fs`disk, fs`files, cache`open, cache`table
    ensures FileRemoved(old(fs.State()), cut, fs.State(), i)
    ensures i < I.COUNT && |cache.table| == 608
    ensures cache.State() == Deleted(old(cache.State()), i, old(fs.files[i].size))
  {
    OpenedStill(fs.State(), cache.State(), i);
    var k := cache.InodeOpen(i);
    I.FindUnique(cache.open, k);
    CutAndSave(fs, cache, i, k);
    cut := fs.State();
    BlankAndUnlist(cache, i, k);
    fs.DropInode(i);
  }

  method BlankAndUnlist(cache: I.InodeCache, i: Ino, k: nat)
    requires |cache.table| == 608 && i < I.COUNT && k < |cache.open|
    modifies cache`open, cache`table
    ensures |cache.table| == 608 && cache.State() == Blanked(old(cache.State()), i, k)
  {
    cache.InodeDelete(i);
    cache.Unlist(k);
  }

  /** The cut at 0, which ends with inode_sync unless there is nothing to cut. */
  method CutAndSave(fs: FS.FileSystem, cache: I.InodeCache, i: Ino, k: nat)
    requires Valid(fs.State()) && cache.Valid() && i in fs.files && k < |cache.open| && cache.open[k].no == i
    modifies fs`bits, fs`own, fs`maps, fs`saved, fs`disk, fs`files, cache`open, cache`table
    ensures WasCut(old(fs.State()), fs.State(), i)
    ensures I.Has(old(cache.open), i) && |cache.table| == 608
    ensures cache.State() == CutSaved(old(cache.State()), i, old(fs.files[i].size))
  {
    ghost var v := fs.State();
    I.FindUnique(cache.open, k);
    var size := fs.files[i].size;
    fs.CutWhole(i);
    if size > 0 {
      CutEmpties(v, fs.State(), i);
      SaveOpen(cache, k, fs.files[i].size, fs.files[i].sectors);
    }
  }

  /** The open inode takes the size and block numbers, and inode_sync writes it. */
  method SaveOpen(cache: I.InodeCache, k: nat, size: Word, sectors: seq<Word>)
    requires cache.Valid() && k < |cache.open| && |sectors| == 13
    modifies cache`open, cache`table
    ensures I.Has(old(cache.open), old(cache.open[k].no)) && |cache.table| == 608
    ensures cache.State() == Saved(old(cache.State()), old(cache.open[k].no), Inode(size, sectors))
  {
    I.FindUnique(cache.open, k);
    cache.open := cache.open[k := cache.open[k].(size := size, sectors := sectors)];
    cache.InodeSync(cache.open[k]);
  }
}
