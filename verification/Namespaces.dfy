/** A directory and the files it names: whole calls, from a name to a file's
    bytes. */
module Namespaces {
  import opened Sectors
  import opened Entries
  import opened BlockMaps
  import opened Volumes
  import opened FileWrites
  import opened FileCuts
  import opened FileLives
  import opened Directories
  import B = Bitmaps

  const DIRECTORY: nat := 2

  /** The directory has an entry for a regular file. */
  ghost predicate Regular(blocks: seq<Block>, e: Entry) {
    Holds(blocks, e) && e.kind == REGULAR
  }

  /** Under this name these bytes are found. */
  ghost predicate Reads(v: Volume, blocks: seq<Block>, name: string, bytes: seq<Byte>)
    requires Valid(v)
  {
    exists e :: Regular(blocks, e) && e.name == name && e.ino in v.files && Data(v, e.ino) == bytes
  }

  /** Entries are for files or directories; a regular one names a file, and no two
      name the same. */
  ghost predicate Linked(v: Volume, blocks: seq<Block>) {
    && DirOk(blocks)
    && (forall e :: Holds(blocks, e) ==> e.kind == REGULAR || e.kind == DIRECTORY)
    && (forall e :: Regular(blocks, e) ==> e.ino in v.files)
    && (forall d, e :: Regular(blocks, d) && Regular(blocks, e) && d.ino == e.ino ==> d == e)
  }

  /** From a state to another a name's bytes become `bytes`, or go, and all other
      names keep theirs. */
  ghost predicate NameSet(v: Volume, blocks: seq<Block>, u: Volume, blocks': seq<Block>, name: string, bytes: seq<Byte>)
    requires Valid(v) && Valid(u)
  {
    forall n, b :: Reads(u, blocks', n, b) <==> if n == name then b == bytes else Reads(v, blocks, n, b)
  }

  ghost predicate NameGoes(v: Volume, blocks: seq<Block>, u: Volume, blocks': seq<Block>, name: string)
    requires Valid(v) && Valid(u)
  {
    forall n, b :: Reads(u, blocks', n, b) <==> n != name && Reads(v, blocks, n, b)
  }

  /** A name reads as one run of bytes. */
  lemma ReadsOnce(v: Volume, blocks: seq<Block>, name: string, a: seq<Byte>, b: seq<Byte>)
    requires Valid(v) && DirOk(blocks) && Reads(v, blocks, name, a) && Reads(v, blocks, name, b)
    ensures a == b
  {
    var d :| Regular(blocks, d) && d.name == name && d.ino in v.files && Data(v, d.ino) == a;
    var e :| Regular(blocks, e) && e.name == name && e.ino in v.files && Data(v, e.ino) == b;
    OneEntry(blocks, d, e);
  }

  lemma ReadsEntry(v: Volume, blocks: seq<Block>, e: Entry, b: seq<Byte>)
    requires Valid(v) && DirOk(blocks) && Regular(blocks, e) && e.ino in v.files
    ensures Reads(v, blocks, e.name, b) <==> b == Data(v, e.ino)
  {
    assert Reads(v, blocks, e.name, Data(v, e.ino));
    if Reads(v, blocks, e.name, b) {
      ReadsOnce(v, blocks, e.name, b, Data(v, e.ino));
    }
  }

  /** Names whose entry and file are untouched read as before. */
  lemma ReadsSame(v: Volume, blocks: seq<Block>, u: Volume, blocks': seq<Block>, n: string, b: seq<Byte>)
    requires Valid(v) && Valid(u)
    requires forall e: Entry :: e.name == n ==> (Regular(blocks, e) <==> Regular(blocks', e))
    requires forall e: Entry :: e.name == n && Regular(blocks, e) ==>
               (e.ino in v.files <==> e.ino in u.files) && (e.ino in v.files ==> Data(u, e.ino) == Data(v, e.ino))
    ensures Reads(u, blocks', n, b) <==> Reads(v, blocks, n, b)
  {
    if Reads(u, blocks', n, b) {
      var e :| Regular(blocks', e) && e.name == n && e.ino in u.files && Data(u, e.ino) == b;
      assert Regular(blocks, e);
    }
    if Reads(v, blocks, n, b) {
      var e :| Regular(blocks, e) && e.name == n && e.ino in v.files && Data(v, e.ino) == b;
      assert Regular(blocks', e);
    }
  }

  // ---------- Creating ----------

  lemma CreateLinked(v: Volume, u: Volume, blocks: seq<Block>, blocks': seq<Block>, e: Entry)
    requires Linked(v, blocks) && DirOk(blocks') && Added(blocks, blocks', e) && e.kind == REGULAR
    requires e.ino !in v.files && u.files.Keys == v.files.Keys + {e.ino}
    ensures Linked(u, blocks')
  {
    forall d | Regular(blocks', d)
      ensures d == e || Regular(blocks, d)
    {}
  }

  /** A new entry for a new file: the name reads as nothing. */
  lemma CreateNames(v: Volume, u: Volume, blocks: seq<Block>, blocks': seq<Block>, e: Entry)
    requires Valid(v) && Valid(u) && Linked(v, blocks) && DirOk(blocks') && Added(blocks, blocks', e)
    requires e.kind == REGULAR && e.ino !in v.files && u.files.Keys == v.files.Keys + {e.ino}
    requires Data(u, e.ino) == [] && forall j :: j in v.files ==> Data(u, j) == Data(v, j)
    ensures Linked(u, blocks') && NameSet(v, blocks, u, blocks', e.name, [])
  {
    CreateLinked(v, u, blocks, blocks', e);
    forall n, b
      ensures Reads(u, blocks', n, b) <==> if n == e.name then b == [] else Reads(v, blocks, n, b)
    {
      if n == e.name {
        ReadsEntry(u, blocks', e, b);
      } else {
        ReadsSame(v, blocks, u, blocks', n, b);
      }
    }
  }

  // ---------- Removing ----------

  lemma RemoveLinked(v: Volume, u: Volume, blocks: seq<Block>, blocks': seq<Block>, e: Entry)
    requires Linked(v, blocks) && DirOk(blocks') && Gone(blocks, blocks', e.name) && Regular(blocks, e)
    requires u.files.Keys == v.files.Keys - {e.ino}
    ensures Linked(u, blocks')
  {
    forall d | Regular(blocks', d)
      ensures Regular(blocks, d) && d.ino != e.ino
    {
      assert d.name != e.name;
    }
  }

  /** An entry and its file gone: the name is not found, all others read as
      before. */
  lemma RemoveNames(v: Volume, u: Volume, blocks: seq<Block>, blocks': seq<Block>, e: Entry)
    requires Valid(v) && Valid(u) && Linked(v, blocks) && DirOk(blocks') && Gone(blocks, blocks', e.name)
    requires Regular(blocks, e) && u.files.Keys == v.files.Keys - {e.ino}
    requires forall j :: j in u.files ==> Data(u, j) == Data(v, j)
    ensures Linked(u, blocks') && NameGoes(v, blocks, u, blocks', e.name)
  {
    RemoveLinked(v, u, blocks, blocks', e);
    forall n, b
      ensures Reads(u, blocks', n, b) <==> n != e.name && Reads(v, blocks, n, b)
    {
      if n != e.name {
        forall d: Entry | d.name == n && Regular(blocks, d)
          ensures d.ino != e.ino
        {}
        ReadsSame(v, blocks, u, blocks', n, b);
      }
    }
  }

  // ---------- Writing ----------

  /** One file's bytes changed: only its name reads otherwise. */
  lemma WriteNames(v: Volume, u: Volume, blocks: seq<Block>, e: Entry, bytes: seq<Byte>)
    requires Linked(v, blocks) && Regular(blocks, e) && Settled(v, u, e.ino, bytes)
    ensures Linked(u, blocks) && NameSet(v, blocks, u, blocks, e.name, bytes)
  {
    forall n, b
      ensures Reads(u, blocks, n, b) <==> if n == e.name then b == bytes else Reads(v, blocks, n, b)
    {
      if n == e.name {
        ReadsEntry(u, blocks, e, b);
      } else {
        ReadsSame(v, blocks, u, blocks, n, b);
      }
    }
  }

  lemma BlocksKept(v: Volume, u: Volume, sectors: seq<Word>, i: Ino)
    requires Placed(v, sectors) && Valid(u) && |u.disk| == |v.disk| && OthersSame(v, u, i)
    ensures Placed(u, sectors) && BlocksOf(u.disk, sectors) == BlocksOf(v.disk, sectors)
  {
    forall k | 0 <= k < |sectors|
      ensures u.disk[sectors[k]] == v.disk[sectors[k]]
    {
      assert SameFixed(v.kept, v.disk, u.disk, sectors[k]);
    }
  }

  // ---------- The calls ----------

  ghost predicate Ready(dir: Directory)
    reads dir, dir.fs
  {
    dir.Valid() && Linked(dir.fs.State(), dir.Blocks())
  }

  /** file_create, with an inode number that is free: the name is new and reads as
      an empty file. */
  method FileCreate(dir: Directory, name: string, i: Ino)
    requires Ready(dir) && i !in dir.fs.files && i < 0x1_0000_0000
    requires EntryOk(Entry(name, i, REGULAR)) && name != "" && !Named(dir.Blocks(), name)
    requires |dir.sectors| < 12 || (|dir.sectors| == 12 && HasFree(dir.Blocks()))
    requires !HasFree(dir.Blocks()) ==> B.CountFree(dir.fs.bits) > 0
    modifies dir, dir.fs`bits, dir.fs`saved, dir.fs`kept, dir.fs`disk, dir.fs`files, dir.fs`maps
    ensures Ready(dir) && dir.fs.files.Keys == old(dir.fs.files.Keys) + {i}
    ensures NameSet(old(dir.fs.State()), old(dir.Blocks()), dir.fs.State(), dir.Blocks(), name, [])
  {
    ghost var v, blocks := dir.fs.State(), dir.Blocks();
    var e := Entry(name, i, REGULAR);
    EnterName(dir, e);
    InitFile(dir, i);
    CreateNames(v, dir.fs.State(), blocks, dir.Blocks(), e);
  }

  /** The entry of the new name. */
  method EnterName(dir: Directory, e: Entry)
    requires dir.Valid() && EntryOk(e) && e.kind == REGULAR && e.name != "" && !Named(dir.Blocks(), e.name)
    requires |dir.sectors| < 12 || (|dir.sectors| == 12 && HasFree(dir.Blocks()))
    requires !HasFree(dir.Blocks()) ==> B.CountFree(dir.fs.bits) > 0
    modifies dir, dir.fs`bits, dir.fs`saved, dir.fs`kept, dir.fs`disk
    ensures dir.Valid() && Added(old(dir.Blocks()), dir.Blocks(), e)
    ensures SameData(old(dir.fs.State()), dir.fs.State(), old(dir.fs.State()).files.Keys)
  {
    dir.SyncDirEntry(e);
  }

  /** inode_init leaves the directory alone. */
  method InitFile(dir: Directory, i: Ino)
    requires dir.Valid() && i !in dir.fs.files
    modifies dir.fs`files, dir.fs`maps
    ensures dir.Valid() && dir.Blocks() == old(dir.Blocks()) && dir.fs.files.Keys == old(dir.fs.files.Keys) + {i}
    ensures Data(dir.fs.State(), i) == []
    ensures SameData(old(dir.fs.State()), dir.fs.State(), old(dir.fs.State()).files.Keys)
  {
    ghost var w := dir.fs.State();
    dir.fs.InodeInit(i);
    assert dir.Blocks() == BlocksOf(w.disk, dir.sectors);
  }

  /** sys_remove: 0 for a regular file that the directory names, which then is
      gone with its name; -1 and no change for any other name. */
  method SysRemove(dir: Directory, name: string) returns (r: int)
    requires Ready(dir) && name != ""
    modifies dir.fs`bits, dir.fs`saved, dir.fs`own, dir.fs`maps, dir.fs`files, dir.fs`disk
    ensures Ready(dir)
    ensures r == 0 || r == -1
    ensures r == 0 <==> exists e :: Regular(old(dir.Blocks()), e) && e.name == name
    ensures r == -1 ==> dir.fs.State() == old(dir.fs.State())
    ensures r == 0 ==> NameGoes(old(dir.fs.State()), old(dir.Blocks()), dir.fs.State(), dir.Blocks(), name)
  {
    var found, e := dir.SearchDirEntry(name);
    if !found || e.kind == DIRECTORY {
      return -1;
    }
    RemoveEntry(dir, e);
    r := 0;
  }

  method RemoveEntry(dir: Directory, e: Entry)
    requires Ready(dir) && Regular(dir.Blocks(), e) && e.name != ""
    modifies dir.fs`bits, dir.fs`saved, dir.fs`own, dir.fs`maps, dir.fs`files, dir.fs`disk
    ensures Ready(dir) && NameGoes(old(dir.fs.State()), old(dir.Blocks()), dir.fs.State(), dir.Blocks(), e.name)
  {
    ghost var v, blocks := dir.fs.State(), dir.Blocks();
    dir.EraseName(e.name);
    ghost var w := dir.fs.State();
    ghost var cut := dir.fs.RemoveFile(e.ino);
    BlocksKept(w, dir.fs.State(), dir.sectors, e.ino);
    RemoveNames(v, dir.fs.State(), blocks, dir.Blocks(), e);
  }

  /** file_write of a file found by its name, under the guard that keeps the file
      system in order. */
  method WriteNamed(dir: Directory, e: Entry, data: seq<Byte>, offset: nat) returns (r: int)
    requires Ready(dir) && Regular(dir.Blocks(), e) && offset + |data| <= 71680
    requires WriteKeeps(dir.fs.files[e.ino].size, offset, |data|)
    requires B.CountFree(dir.fs.bits) >= Needed(dir.fs.files[e.ino].size, offset, |data|)
    modifies dir.fs`bits, dir.fs`own, dir.fs`maps, dir.fs`saved, dir.fs`disk, dir.fs`files
    ensures Ready(dir) && dir.Blocks() == old(dir.Blocks())
    ensures NameSet(old(dir.fs.State()), old(dir.Blocks()), dir.fs.State(), dir.Blocks(), e.name,
                    Written(old(Data(dir.fs.State(), e.ino)), offset, data))
  {
    ghost var v := dir.fs.State();
    r := dir.fs.FileWrite(e.ino, data, offset);
    BlocksKept(v, dir.fs.State(), dir.sectors, e.ino);
    WriteNames(v, dir.fs.State(), dir.Blocks(), e, Written(Data(v, e.ino), offset, data));
  }

  /** file_read of a file found by its name: the exact slice of what the name
      reads as. */
  method ReadNamed(dir: Directory, e: Entry, offset: nat, count: nat) returns (r: int, out: seq<Byte>)
    requires Ready(dir) && Regular(dir.Blocks(), e) && offset + count < 0x1_0000_0000
    ensures exists b ::
              && Reads(dir.fs.State(), dir.Blocks(), e.name, b)
              && (offset >= |b| ==> r == -1 && out == [])
              && (offset < |b| ==>
                    && r == (if offset + count > |b| then |b| - offset else count)
                    && out == b[offset..offset + r])
  {
    ReadsEntry(dir.fs.State(), dir.Blocks(), e, Data(dir.fs.State(), e.ino));
    r, out := dir.fs.FileRead(e.ino, offset, count);
  }
}
