/** Directory blocks of 16 entries as a finite map from names, in the sectors that
    a directory has. */
module Directories {
  import opened Sectors
  import opened Entries
  import opened BlockMaps
  import opened Volumes
  import opened FileWrites
  import opened FileLives
  import B = Bitmaps
  import FS = FileSystems

  /** Every block has its 16 slots; a free slot has no name and a taken one has. */
  predicate BlockOk(b: Block) {
    |b| == 16 && forall i :: 0 <= i < 16 ==> (b[i].kind == 0 <==> b[i].name == "")
  }

  ghost predicate At(blocks: seq<Block>, k: int, i: int, e: Entry) {
    0 <= k < |blocks| && 0 <= i < |blocks[k]| && blocks[k][i] == e
  }

  /** No name is there twice. */
  ghost predicate DirOk(blocks: seq<Block>) {
    && (forall k :: 0 <= k < |blocks| ==> BlockOk(blocks[k]))
    && (forall k, i, d, l, j, e :: At(blocks, k, i, d) && At(blocks, l, j, e) && d.kind != 0 && d.name == e.name ==>
          k == l && i == j)
  }

  /** The directory has an entry. */
  ghost predicate Holds(blocks: seq<Block>, e: Entry) {
    e.kind != 0 && exists k, i :: At(blocks, k, i, e)
  }

  /** And by its name. */
  ghost predicate Named(blocks: seq<Block>, name: string) {
    exists e :: Holds(blocks, e) && e.name == name
  }

  /** The directory is a map: a name has one entry. */
  lemma OneEntry(blocks: seq<Block>, d: Entry, e: Entry)
    requires DirOk(blocks) && Holds(blocks, d) && Holds(blocks, e) && d.name == e.name
    ensures d == e
  {
    var k, i :| At(blocks, k, i, d);
    var l, j :| At(blocks, l, j, e);
  }

  /** One slot overwritten. */
  function With(blocks: seq<Block>, k: nat, i: nat, e: Entry): seq<Block>
    requires k < |blocks| && i < |blocks[k]|
  {
    blocks[k := blocks[k][i := e]]
  }

  lemma WithAt(blocks: seq<Block>, k: nat, i: nat, e: Entry, l: int, j: int, x: Entry)
    requires k < |blocks| && i < |blocks[k]|
    ensures At(With(blocks, k, i, e), l, j, x) <==> if l == k && j == i then x == e else At(blocks, l, j, x)
  {}

  /** A free slot taken by a new name. */
  lemma InsertHolds(blocks: seq<Block>, k: nat, i: nat, e: Entry)
    requires DirOk(blocks) && k < |blocks| && i < 16 && blocks[k][i].kind == 0
    requires e.kind != 0 && e.name != "" && !Named(blocks, e.name)
    ensures DirOk(With(blocks, k, i, e))
    ensures forall x :: Holds(With(blocks, k, i, e), x) <==> Holds(blocks, x) || x == e
  {
    var u := With(blocks, k, i, e);
    forall l, j, x
      ensures At(u, l, j, x) <==> if l == k && j == i then x == e else At(blocks, l, j, x)
    {
      WithAt(blocks, k, i, e, l, j, x);
    }
    assert At(blocks, k, i, blocks[k][i]) && At(u, k, i, e);
    forall x
      ensures Holds(u, x) <==> Holds(blocks, x) || x == e
    {
      if Holds(blocks, x) {
        var l, j :| At(blocks, l, j, x);
        assert At(u, l, j, x);
      }
    }
    forall l, j, d, m, n, f | At(u, l, j, d) && At(u, m, n, f) && d.kind != 0 && d.name == f.name
      ensures l == m && j == n
    {
      assert f.kind != 0;
      if !(l == k && j == i) { assert Holds(blocks, d); }
      if !(m == k && n == i) { assert Holds(blocks, f); }
    }
  }

  /** The buffer cleared and the entry copied to its start. */
  function NewBlock(e: Entry): Block { ZeroBlock()[0 := e] }

  /** A new block whose first slot has the entry. */
  lemma AppendHolds(blocks: seq<Block>, e: Entry)
    requires DirOk(blocks) && e.kind != 0 && e.name != "" && !Named(blocks, e.name)
    ensures var u := blocks + [NewBlock(e)];
            DirOk(u) && forall x :: Holds(u, x) <==> Holds(blocks, x) || x == e
  {
    var zero := blocks + [ZeroBlock()];
    assert DirOk(zero) && forall x :: Holds(zero, x) <==> Holds(blocks, x) by {
      forall l, j, x
        ensures At(zero, l, j, x) <==> At(blocks, l, j, x) || (l == |blocks| && 0 <= j < 16 && x == EMPTY)
      {}
    }
    assert !Named(zero, e.name);
    InsertHolds(zero, |blocks|, 0, e);
    assert With(zero, |blocks|, 0, e) == blocks + [NewBlock(e)];
  }

  /** A name's slot cleared. */
  lemma EraseHolds(blocks: seq<Block>, k: nat, i: nat)
    requires DirOk(blocks) && k < |blocks| && i < 16 && blocks[k][i].kind != 0
    ensures DirOk(With(blocks, k, i, EMPTY))
    ensures forall x :: Holds(With(blocks, k, i, EMPTY), x) <==> Holds(blocks, x) && x.name != blocks[k][i].name
  {
    var u, d := With(blocks, k, i, EMPTY), blocks[k][i];
    assert At(blocks, k, i, d);
    forall l, j, x
      ensures At(u, l, j, x) <==> if l == k && j == i then x == EMPTY else At(blocks, l, j, x)
    {
      WithAt(blocks, k, i, EMPTY, l, j, x);
    }
    forall x
      ensures Holds(u, x) <==> Holds(blocks, x) && x.name != d.name
    {
      if Holds(blocks, x) && x.name != d.name {
        var l, j :| At(blocks, l, j, x);
        assert At(u, l, j, x);
      }
    }
  }

  /** Exactly this entry more. */
  ghost predicate Added(blocks: seq<Block>, blocks': seq<Block>, e: Entry) {
    forall x :: Holds(blocks', x) <==> Holds(blocks, x) || x == e
  }

  /** Exactly the entry with the name less. */
  ghost predicate Gone(blocks: seq<Block>, blocks': seq<Block>, name: string) {
    forall x :: Holds(blocks', x) <==> Holds(blocks, x) && x.name != name
  }

  /** The bytes of the entry in a free slot. */
  lemma FillHolds(blocks: seq<Block>, k: nat, i: nat, e: Entry)
    requires DirOk(blocks) && k < |blocks| && i < 16 && blocks[k][i].kind == 0
    requires EntryOk(e) && e.kind != 0 && e.name != "" && !Named(blocks, e.name)
    ensures DirOk(With(blocks, k, i, Decode(Encode(e)))) && Added(blocks, With(blocks, k, i, Decode(Encode(e))), e)
  {
    DecodeEncode(e);
    InsertHolds(blocks, k, i, e);
  }

  ghost predicate HasFree(blocks: seq<Block>) {
    exists k, i, x :: At(blocks, k, i, x) && x.kind == 0
  }

  ghost predicate OthersHeld(blocks: seq<Block>, blocks': seq<Block>, name: string) {
    forall x: Entry :: x.name != name ==> (Holds(blocks', x) <==> Holds(blocks, x))
  }

  /** The free slot that comes first. */
  ghost predicate FirstFree(blocks: seq<Block>, k: nat, i: nat) {
    && k < |blocks| && i < |blocks[k]| && blocks[k][i].kind == 0
    && forall l, j, x :: At(blocks, l, j, x) && (l < k || (l == k && j < i)) ==> x.kind != 0
  }

  /** The slot in which a new entry is put: the first free one, or the first of a
      new block. */
  ghost predicate Slotted(blocks: seq<Block>, blocks': seq<Block>, e: Entry) {
    if HasFree(blocks) then exists k, i :: FirstFree(blocks, k, i) && blocks' == With(blocks, k, i, e)
    else blocks' == blocks + [NewBlock(e)]
  }

  /** The name is in no block before k. */
  ghost predicate NameGoneTo(blocks: seq<Block>, name: string, k: nat) {
    forall l, j, x :: At(blocks, l, j, x) && l < k ==> x.name != name
  }

  /** The cleared buffer with the entry at its start. */
  lemma NewSector(e: Entry)
    requires EntryOk(e)
    ensures Unpack(Patch(ZERO, 32 * 0, Encode(e))) == NewBlock(e)
  {
    UnpackZero();
    DecodeEncode(e);
    UnpackPatch(ZERO, 0, Encode(e));
  }

  /** A name's slot overwritten by zeros. */
  lemma SlotCleared(blocks: seq<Block>, k: nat, i: nat, name: string, n: nat)
    requires DirOk(blocks) && k < |blocks| && i < 16 && blocks[k][i].name == name != ""
    ensures var u := With(blocks, k, i, Decode(Zeros(32)));
            DirOk(u) && OthersHeld(blocks, u, name) && NameGoneTo(u, name, n)
  {
    Entries.DecodeZeros();
    EraseHolds(blocks, k, i);
    NameGone(blocks, k, i);
  }

  lemma NameGone(blocks: seq<Block>, k: nat, i: nat)
    requires DirOk(blocks) && k < |blocks| && i < 16 && blocks[k][i].kind != 0
    ensures forall l, j, x :: At(With(blocks, k, i, EMPTY), l, j, x) ==> x.name != blocks[k][i].name
  {
    var d := blocks[k][i];
    assert At(blocks, k, i, d);
    forall l, j, x | At(With(blocks, k, i, EMPTY), l, j, x)
      ensures x.name != d.name
    {
      WithAt(blocks, k, i, EMPTY, l, j, x);
    }
  }

  // ---------- In the sectors ----------

  function BlocksOf(disk: seq<Sector>, sectors: seq<Word>): (b: seq<Block>)
    requires forall k :: 0 <= k < |sectors| ==> sectors[k] < |disk|
    ensures |b| == |sectors|
  {
    seq(|sectors|, k requires 0 <= k < |sectors| => Unpack(disk[sectors[k]]))
  }

  predicate Distinct(sectors: seq<Word>) {
    forall j, k :: 0 <= j < k < |sectors| ==> sectors[j] != sectors[k]
  }

  lemma BlocksWritten(disk: seq<Sector>, sectors: seq<Word>, k: nat, s: Sector)
    requires (forall j :: 0 <= j < |sectors| ==> sectors[j] < |disk|) && Distinct(sectors) && k < |sectors|
    ensures BlocksOf(disk[sectors[k] := s], sectors) == BlocksOf(disk, sectors)[k := Unpack(s)]
  {}

  lemma BlocksAdded(disk: seq<Sector>, sectors: seq<Word>, b: Word, s: Sector)
    requires (forall j :: 0 <= j < |sectors| ==> sectors[j] < |disk|) && b < |disk| && b !in sectors
    ensures BlocksOf(disk[b := s], sectors + [b]) == BlocksOf(disk, sectors) + [Unpack(s)]
  {}

  /** The sectors belong to directories, and each is here once. */
  ghost predicate Placed(v: Volume, sectors: seq<Word>) {
    && Valid(v) && Distinct(sectors)
    && forall k :: 0 <= k < |sectors| ==> sectors[k] in v.kept && sectors[k] < |v.disk|
  }

  /** No file has changed, and no sector of another directory. */
  ghost predicate OnlyDir(v: Volume, u: Volume, sectors: seq<Word>) {
    && SameData(v, u, v.files.Keys) && u.files == v.files && |u.disk| == |v.disk| && v.kept <= u.kept
    && forall b: nat :: b in v.kept && b !in sectors && b < |v.disk| ==> u.disk[b] == v.disk[b]
  }

  class Directory {
    const fs: FS.FileSystem
    /** The direct blocks in use, from the first on. */
    var sectors: seq<Word>
    var size: nat

    /** The size counts whole entries. */
    ghost predicate Valid()
      reads this, fs
    {
      Placed(fs.State(), sectors) && DirOk(Blocks()) && size % ENTRY_SIZE == 0
    }

    ghost function Blocks(): (b: seq<Block>)
      requires Placed(fs.State(), sectors)
      reads `sectors, fs
      ensures |b| == |sectors|
    {
      BlocksOf(fs.disk, sectors)
    }

    /** A directory without a block. */
    constructor (fs: FS.FileSystem)
      requires Volumes.Valid(fs.State())
      ensures this.fs == fs && Valid() && Blocks() == [] && size == 0
    {
      this.fs := fs;
      sectors, size := [], 0;
    }

    /** search_dir_entry: the first slot with the name, in block order. */
    method SearchDirEntry(name: string) returns (found: bool, e: Entry)
      requires Valid() && name != ""
      ensures found <==> Named(Blocks(), name)
      ensures found ==> Holds(Blocks(), e) && e.name == name
    {
      ghost var blocks := Blocks();
      var k := 0;
      while k < |sectors|
        invariant k <= |sectors|
        invariant forall l, j, x :: At(blocks, l, j, x) && l < k ==> x.name != name
      {
        var block := Unpack(fs.disk[sectors[k]]);
        var i := 0;
        while i < 16
          invariant i <= 16 && block == blocks[k]
          invariant forall j :: 0 <= j < i ==> block[j].name != name
        {
          if block[i].name == name {
            assert At(blocks, k, i, block[i]);
            return true, block[i];
          }
          i := i + 1;
        }
        k := k + 1;
      }
      return false, EMPTY;
    }

    /** The sector is read, one slot of it overwritten, and written back. */
    method PutSlot(k: nat, i: nat, bytes: seq<Byte>)
      requires Placed(fs.State(), sectors) && k < |sectors| && i < 16 && |bytes| == 32
      modifies fs`disk
      ensures Placed(fs.State(), sectors) && OnlyDir(old(fs.State()), fs.State(), sectors)
      ensures Blocks() == With(old(Blocks()), k, i, Decode(bytes))
    {
      var buf := fs.disk[sectors[k]];
      UnpackPatch(buf, i, bytes);
      BlocksWritten(fs.disk, sectors, k, Patch(buf, 32 * i, bytes));
      fs.WriteDirBlock(sectors[k], Patch(buf, 32 * i, bytes));
    }

    /** A new block, whose first slot has the entry. */
    method AddBlock(e: Entry)
      requires Placed(fs.State(), sectors) && EntryOk(e) && B.CountFree(fs.bits) > 0
      modifies `sectors, fs`bits, fs`saved, fs`kept, fs`disk
      ensures Placed(fs.State(), sectors) && OnlyDir(old(fs.State()), fs.State(), sectors)
      ensures Blocks() == old(Blocks()) + [NewBlock(e)]
      ensures B.CountFree(fs.bits) + 1 == old(B.CountFree(fs.bits))
    {
      var buf := Patch(ZERO, 32 * 0, Encode(e));
      NewSector(e);
      ghost var disk := fs.disk;
      var b := fs.TakeDirBlock(buf);
      BlocksAdded(disk, sectors, b, buf);
      sectors := sectors + [b];
    }

    /** sync_dir_entry, for a name that is new and a directory that has a free
        slot or fewer than 12 blocks, and then a free block: a free slot is used
        again before a block is added.  Only the entry that reuses a slot counts in
        the size; the ASSERT on the size holds. */
    method SyncDirEntry(e: Entry)
      requires Valid() && EntryOk(e) && e.kind != 0 && e.name != "" && !Named(Blocks(), e.name)
      requires |sectors| < 12 || (|sectors| == 12 && HasFree(Blocks()))
      requires !HasFree(Blocks()) ==> B.CountFree(fs.bits) > 0
      modifies this, fs`bits, fs`saved, fs`kept, fs`disk
      ensures Valid() && Added(old(Blocks()), Blocks(), e) && OnlyDir(old(fs.State()), fs.State(), sectors)
      ensures Slotted(old(Blocks()), Blocks(), e)
      ensures |sectors| == |old(sectors)| + (if old(HasFree(Blocks())) then 0 else 1) <= 12
      ensures size == old(size) + (if old(HasFree(Blocks())) then ENTRY_SIZE else 0)
      ensures B.CountFree(fs.bits) + (|sectors| - |old(sectors)|) == old(B.CountFree(fs.bits))
    {
      assert size % ENTRY_SIZE == 0;
      var found, k, i := FindFree();
      if found {
        FillSlot(e, k, i);
      } else {
        AddEntry(e);
      }
    }

    method FillSlot(e: Entry, k: nat, i: nat)
      requires Valid() && EntryOk(e) && e.kind != 0 && e.name != "" && !Named(Blocks(), e.name)
      requires k < |sectors| && i < 16 && Blocks()[k][i].kind == 0
      modifies `size, fs`disk
      ensures Valid() && Added(old(Blocks()), Blocks(), e) && OnlyDir(old(fs.State()), fs.State(), sectors)
      ensures size == old(size) + ENTRY_SIZE && Blocks() == With(old(Blocks()), k, i, e)
    {
      FillHolds(Blocks(), k, i, e);
      DecodeEncode(e);
      RewriteSlot(k, i, Encode(e));
      CountEntry();
    }

    method CountEntry()
      requires Valid()
      modifies `size
      ensures Valid() && size == old(size) + ENTRY_SIZE && Blocks() == old(Blocks())
    {
      size := size + ENTRY_SIZE;
    }

    /** A slot overwritten so that the directory stays in order. */
    method RewriteSlot(k: nat, i: nat, bytes: seq<Byte>)
      requires Valid() && k < |sectors| && i < 16 && |bytes| == 32 && DirOk(With(Blocks(), k, i, Decode(bytes)))
      modifies fs`disk
      ensures Valid() && OnlyDir(old(fs.State()), fs.State(), sectors)
      ensures Blocks() == With(old(Blocks()), k, i, Decode(bytes))
    {
      PutSlot(k, i, bytes);
    }

    method AddEntry(e: Entry)
      requires Valid() && EntryOk(e) && e.kind != 0 && e.name != "" && !Named(Blocks(), e.name)
      requires B.CountFree(fs.bits) > 0
      modifies `sectors, fs`bits, fs`saved, fs`kept, fs`disk
      ensures Valid() && Added(old(Blocks()), Blocks(), e) && OnlyDir(old(fs.State()), fs.State(), sectors)
      ensures |sectors| == |old(sectors)| + 1 && B.CountFree(fs.bits) + 1 == old(B.CountFree(fs.bits))
      ensures Blocks() == old(Blocks()) + [NewBlock(e)]
    {
      AppendHolds(Blocks(), e);
      AddBlock(e);
    }

    /** The loops of sync_dir_entry, up to a free slot. */
    method FindFree() returns (found: bool, k: nat, i: nat)
      requires Valid()
      ensures found <==> HasFree(Blocks())
      ensures found ==> k < |sectors| && i < 16 && FirstFree(Blocks(), k, i)
    {
      ghost var blocks := Blocks();
      k, i := 0, 0;
      while k < |sectors|
        invariant k <= |sectors|
        invariant forall l, j, x :: At(blocks, l, j, x) && l < k ==> x.kind != 0
      {
        var block := Unpack(fs.disk[sectors[k]]);
        i := 0;
        while i < 16
          invariant i <= 16 && block == blocks[k]
          invariant forall j :: 0 <= j < i ==> block[j].kind != 0
        {
          if block[i].kind == 0 {
            assert At(blocks, k, i, block[i]);
            return true, k, i;
          }
          i := i + 1;
        }
        k := k + 1;
      }
      found := false;
    }

    /** The loop of sys_remove: in every block the first slot with the name is
        cleared. */
    method EraseName(name: string)
      requires Valid() && name != ""
      modifies fs`disk
      ensures Valid() && OnlyDir(old(fs.State()), fs.State(), sectors)
      ensures Gone(old(Blocks()), Blocks(), name)
    {
      var k := 0;
      ghost var v := fs.State();
      while k < |sectors|
        invariant k <= |sectors| && Valid() && OnlyDir(v, fs.State(), sectors)
        invariant NameGoneTo(Blocks(), name, k)
        invariant OthersHeld(old(Blocks()), Blocks(), name)
      {
        k := EraseIn(name, k);
      }
    }

    /** One block of that loop. */
    method EraseIn(name: string, k: nat) returns (next: nat)
      requires Valid() && name != "" && k < |sectors| && NameGoneTo(Blocks(), name, k)
      modifies fs`disk
      ensures next == k + 1 && Valid() && OnlyDir(old(fs.State()), fs.State(), sectors)
      ensures NameGoneTo(Blocks(), name, next)
      ensures OthersHeld(old(Blocks()), Blocks(), name)
    {
      next := k + 1;
      ghost var blocks := Blocks();
      var block := Unpack(fs.disk[sectors[k]]);
      var i := 0;
      while i < 16
        invariant i <= 16 && block == blocks[k]
        invariant forall j :: 0 <= j < i ==> block[j].name != name
      {
        if block[i].name == name {
          SlotCleared(blocks, k, i, name, next);
          RewriteSlot(k, i, Zeros(32));
          return;
        }
        i := i + 1;
      }
    }
  }
}
