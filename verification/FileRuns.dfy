/** Runs of calls that create, write, cut and remove files and that take and
    write directories' blocks: the partition behaves as a store of byte sequences
    and of directory sectors. */
module FileRuns {
  import opened Sectors
  import opened BlockMaps
  import opened Volumes
  import opened FileWrites
  import opened FileCuts
  import opened FileLives
  import B = Bitmaps

  datatype Op =
    | WriteOp(i: Ino, offset: nat, data: seq<Byte>)
    | RemoveOp(i: Ino, offset: nat, size: nat)
    | CreateOp(i: Ino)
    | DeleteOp(i: Ino)
    | DirTakeOp(b: Word, s: Sector)
    | DirWriteOp(b: Word, s: Sector)

  /** The files' bytes, and the directories' sectors. */
  datatype Store = Store(files: map<Ino, seq<Byte>>, dirs: map<nat, Sector>)

  function FilesOf(v: Volume): (s: map<Ino, seq<Byte>>)
    requires Valid(v)
    ensures s.Keys == v.files.Keys
  {
    map i | i in v.files :: Data(v, i)
  }

  function DirsOf(v: Volume): (s: map<nat, Sector>)
    requires Valid(v)
    ensures s.Keys == v.kept
  {
    map b | b in v.kept :: v.disk[b]
  }

  function StoreOf(v: Volume): Store
    requires Valid(v)
  {
    Store(FilesOf(v), DirsOf(v))
  }

  /** What each operation means to the caller. */
  function Apply(s: Store, op: Op): Store {
    match op
    case WriteOp(i, offset, data) =>
      if i !in s.files || offset + |data| > 71680 then s
      else s.(files := s.files[i := Written(s.files[i], offset, data)])
    case RemoveOp(i, offset, size) =>
      if i !in s.files || offset >= |s.files[i]| then s
      else if offset + size >= |s.files[i]| then s.(files := s.files[i := s.files[i][..offset]])
      else s.(files := s.files[i := Written(s.files[i], offset, Zeros(size))])
    case CreateOp(i) => s.(files := s.files[i := []])
    case DeleteOp(i) => s.(files := s.files - {i})
    case DirTakeOp(b, sector) => s.(dirs := s.dirs[b := sector])
    case DirWriteOp(b, sector) => s.(dirs := s.dirs[b := sector])
  }

  /** The guards a caller can check: those of WriteKeeps, and a removal inside
      the file that has a byte to remove; a new file's number is not in use, and
      a directory writes a block that a directory has. */
  predicate Guarded(v: Volume, op: Op) {
    match op
    case WriteOp(i, offset, data) =>
      i in v.files && (offset + |data| <= 71680 ==> WriteKeeps(v.files[i].size, offset, |data|))
    case RemoveOp(i, offset, n) => i in v.files && (offset < v.files[i].size ==> n > 0)
    case CreateOp(i) => i !in v.files
    case DeleteOp(i) => i in v.files
    case DirTakeOp(_, _) => B.CountFree(v.bits) > 0
    case DirWriteOp(b, _) => b in v.kept
  }

  /** A call of the operation that took v to u. */
  ghost predicate Called(v: Volume, op: Op, u: Volume)
    requires Valid(v) && Guarded(v, op)
  {
    match op
    case WriteOp(i, offset, data) => exists r :: WriteResult(v, u, i, offset, data, r)
    case RemoveOp(i, offset, size) => exists r :: RemoveResult(v, u, i, offset, size, r)
    case CreateOp(i) => u == Created(v, i)
    case DeleteOp(i) => exists w :: FileRemoved(v, w, u, i)
    case DirTakeOp(b, s) => b == FreeBlock(v) && u == DirTaken(v, b, s)
    case DirWriteOp(b, s) => u == Write(v, b, s)
  }

  lemma Updated(s: map<Ino, seq<Byte>>, t: map<Ino, seq<Byte>>, i: Ino, bytes: seq<Byte>)
    requires forall j :: j in t <==> j in s || j == i
    requires forall j :: j in t ==> t[j] == if j == i then bytes else s[j]
    ensures t == s[i := bytes]
  {}

  lemma WithFile(v: Volume, u: Volume, i: Ino, bytes: seq<Byte>)
    requires Valid(v) && Valid(u) && (forall j :: j in u.files <==> j in v.files || j == i)
    requires Data(u, i) == bytes && forall j :: j in v.files && j != i ==> Data(u, j) == Data(v, j)
    ensures FilesOf(u) == FilesOf(v)[i := bytes]
  {
    forall j | j in u.files
      ensures FilesOf(u)[j] == if j == i then bytes else FilesOf(v)[j]
    {
      FileOf(u, j);
      if j != i { FileOf(v, j); }
    }
    Updated(FilesOf(v), FilesOf(u), i, bytes);
  }

  lemma FileOf(v: Volume, j: Ino)
    requires Valid(v) && j in v.files
    ensures FilesOf(v)[j] == Data(v, j)
  {}

  lemma Restricted(s: map<Ino, seq<Byte>>, t: map<Ino, seq<Byte>>, i: Ino)
    requires t.Keys == s.Keys - {i} && forall j :: j in t ==> t[j] == s[j]
    ensures t == s - {i}
  {}

  /** No directory's sector has changed. */
  lemma SameDirs(v: Volume, u: Volume, i: Ino)
    requires Valid(v) && Valid(u) && OthersSame(v, u, i) && |u.disk| == |v.disk|
    ensures DirsOf(u) == DirsOf(v)
  {
    forall b | b in v.kept
      ensures u.disk[b] == v.disk[b]
    {
      assert SameFixed(v.kept, v.disk, u.disk, b);
    }
  }

  lemma SettledStore(v: Volume, u: Volume, i: Ino, bytes: seq<Byte>)
    requires Settled(v, u, i, bytes)
    ensures StoreOf(u) == StoreOf(v).(files := FilesOf(v)[i := bytes])
  {
    SettledFiles(v, u, i, bytes);
    SameDirs(v, u, i);
  }

  lemma SettledFiles(v: Volume, u: Volume, i: Ino, bytes: seq<Byte>)
    requires Settled(v, u, i, bytes)
    ensures FilesOf(u) == FilesOf(v)[i := bytes]
  {
    forall j | j in u.files
      ensures FilesOf(u)[j] == if j == i then bytes else FilesOf(v)[j]
    {
      SettledFile(v, u, i, bytes, j);
    }
    Updated(FilesOf(v), FilesOf(u), i, bytes);
  }

  lemma SettledFile(v: Volume, u: Volume, i: Ino, bytes: seq<Byte>, j: Ino)
    requires Settled(v, u, i, bytes) && j in u.files
    ensures FilesOf(u)[j] == if j == i then bytes else FilesOf(v)[j]
  {}

  lemma WriteRefines(v: Volume, u: Volume, i: Ino, offset: nat, data: seq<Byte>, r: int)
    requires Valid(v) && Guarded(v, WriteOp(i, offset, data)) && WriteResult(v, u, i, offset, data, r)
    ensures Valid(u) && StoreOf(u) == Apply(StoreOf(v), WriteOp(i, offset, data))
  {
    if offset + |data| <= 71680 {
      SettledStore(v, u, i, Written(Data(v, i), offset, data));
    }
  }

  lemma CutRefines(v: Volume, u: Volume, i: Ino, offset: nat, size: nat)
    requires Valid(v) && i in v.files && offset < v.files[i].size <= offset + size
    requires Settled(v, u, i, Data(v, i)[..offset])
    ensures Valid(u) && StoreOf(u) == Apply(StoreOf(v), RemoveOp(i, offset, size))
  {
    SettledStore(v, u, i, Data(v, i)[..offset]);
  }

  lemma ZeroRefines(v: Volume, u: Volume, i: Ino, offset: nat, size: nat)
    requires Valid(v) && i in v.files && offset + size < v.files[i].size
    requires Settled(v, u, i, Written(Data(v, i), offset, Zeros(size)))
    ensures Valid(u) && StoreOf(u) == Apply(StoreOf(v), RemoveOp(i, offset, size))
  {
    SettledStore(v, u, i, Written(Data(v, i), offset, Zeros(size)));
  }

  lemma RemoveRefines(v: Volume, u: Volume, i: Ino, offset: nat, size: nat, r: Outcome)
    requires Valid(v) && Guarded(v, RemoveOp(i, offset, size)) && RemoveResult(v, u, i, offset, size, r)
    ensures Valid(u) && StoreOf(u) == Apply(StoreOf(v), RemoveOp(i, offset, size))
  {
    var end := v.files[i].size;
    if offset < end && offset + size >= end {
      CutRefines(v, u, i, offset, size);
    } else if offset < end {
      ZeroRefines(v, u, i, offset, size);
    }
  }

  lemma CreateRefines(v: Volume, i: Ino)
    requires Valid(v) && i !in v.files
    ensures Valid(Created(v, i)) && StoreOf(Created(v, i)) == Apply(StoreOf(v), CreateOp(i))
  {
    CreateSettles(v, i);
    AddedStore(v, Created(v, i), i);
  }

  lemma AddedStore(v: Volume, u: Volume, i: Ino)
    requires SameData(v, u, v.files.Keys) && Valid(u) && u.disk == v.disk && u.kept == v.kept
    requires (forall j :: j in u.files <==> j in v.files || j == i) && i !in v.files && Data(u, i) == []
    ensures StoreOf(u) == Apply(StoreOf(v), CreateOp(i))
  {
    WithFile(v, u, i, []);
    SameDisks(v, u);
  }

  lemma SameDisks(v: Volume, u: Volume)
    requires Valid(v) && Valid(u) && u.disk == v.disk && u.kept == v.kept
    ensures DirsOf(u) == DirsOf(v)
  {}

  lemma DeleteRefines(v: Volume, w: Volume, u: Volume, i: Ino)
    requires FileRemoved(v, w, u, i)
    ensures Valid(u) && StoreOf(u) == Apply(StoreOf(v), DeleteOp(i))
  {
    RemoveFileSettles(v, w, u, i);
    assert u.files.Keys == v.files.Keys - {i};
    Deleted(v, u, i);
  }

  lemma Deleted(v: Volume, u: Volume, i: Ino)
    requires Valid(v) && Valid(u) && u.files.Keys == v.files.Keys - {i} && OthersSame(v, u, i) && |u.disk| == |v.disk|
    requires forall j :: j in u.files ==> Data(u, j) == Data(v, j)
    ensures StoreOf(u) == Apply(StoreOf(v), DeleteOp(i))
  {
    SameDirs(v, u, i);
    WithoutFile(v, u, i);
  }

  lemma WithoutFile(v: Volume, u: Volume, i: Ino)
    requires Valid(v) && Valid(u) && u.files.Keys == v.files.Keys - {i}
    requires forall j :: j in u.files ==> Data(u, j) == Data(v, j)
    ensures FilesOf(u) == FilesOf(v) - {i}
  {
    forall j | j in u.files
      ensures FilesOf(u)[j] == FilesOf(v)[j]
    {
      FileOf(u, j);
      FileOf(v, j);
    }
    Restricted(FilesOf(v), FilesOf(u), i);
  }

  lemma DirRefines(v: Volume, u: Volume, b: Word, s: Sector)
    requires Valid(v) && b < |v.disk| && u.disk == v.disk[b := s] && u.kept == v.kept + {b}
    requires SameData(v, u, v.files.Keys) && u.files == v.files
    ensures StoreOf(u) == StoreOf(v).(dirs := DirsOf(v)[b := s])
  {
    assert FilesOf(u) == FilesOf(v);
    assert DirsOf(u) == DirsOf(v)[b := s];
  }

  lemma DirTakeRefines(v: Volume, b: Word, s: Sector)
    requires Valid(v) && B.CountFree(v.bits) > 0 && b == FreeBlock(v)
    ensures Valid(DirTaken(v, b, s)) && StoreOf(DirTaken(v, b, s)) == Apply(StoreOf(v), DirTakeOp(b, s))
  {
    DirTakeSettles(v, s);
    DirRefines(v, DirTaken(v, b, s), b, s);
  }

  lemma DirWriteRefines(v: Volume, b: Word, s: Sector)
    requires Valid(v) && b in v.kept
    ensures b < |v.disk| && Valid(Write(v, b, s)) && StoreOf(Write(v, b, s)) == Apply(StoreOf(v), DirWriteOp(b, s))
  {
    DirWriteSettles(v, b, s);
    assert v.kept + {b} == v.kept;
    DirRefines(v, Write(v, b, s), b, s);
  }

  /** Each call does to the store what the operation means. */
  lemma CallRefines(v: Volume, op: Op, u: Volume)
    requires Valid(v) && Guarded(v, op) && Called(v, op, u)
    ensures Valid(u) && StoreOf(u) == Apply(StoreOf(v), op)
  {
    match op
    case WriteOp(i, offset, data) =>
      var r :| WriteResult(v, u, i, offset, data, r);
      WriteRefines(v, u, i, offset, data, r);
    case RemoveOp(i, offset, size) =>
      var r :| RemoveResult(v, u, i, offset, size, r);
      RemoveRefines(v, u, i, offset, size, r);
    case CreateOp(i) => CreateRefines(v, i);
    case DeleteOp(i) =>
      var w :| FileRemoved(v, w, u, i);
      DeleteRefines(v, w, u, i);
    case DirTakeOp(b, s) => DirTakeRefines(v, b, s);
    case DirWriteOp(b, s) => DirWriteRefines(v, b, s);
  }

  /** The states `us` that a run of calls from v goes through. */
  ghost predicate IsRun(v: Volume, ops: seq<Op>, us: seq<Volume>)
    requires Valid(v)
    decreases |ops|
  {
    if ops == [] then us == []
    else
      && us != [] && Guarded(v, ops[0]) && Called(v, ops[0], us[0])
      && (CallRefines(v, ops[0], us[0]); IsRun(us[0], ops[1..], us[1..]))
  }

  function ApplyAll(s: Store, ops: seq<Op>): Store
    decreases |ops|
  {
    if ops == [] then s else ApplyAll(Apply(s, ops[0]), ops[1..])
  }

  ghost predicate AllValid(us: seq<Volume>) {
    forall u :: u in us ==> Valid(u)
  }

  lemma AllValidMore(us: seq<Volume>)
    requires us != [] && Valid(us[0]) && AllValid(us[1..])
    ensures AllValid(us)
  {
    forall u | u in us ensures Valid(u) {
      if u != us[0] { assert u in us[1..]; }
    }
  }

  /** Over every run every state is in order, and the files and the directories'
      blocks hold at the end what the operations mean. */
  lemma {:induction false} RunRefines(v: Volume, ops: seq<Op>, us: seq<Volume>)
    requires Valid(v) && IsRun(v, ops, us)
    ensures AllValid(us)
    ensures us != [] ==> Valid(us[|us| - 1]) && StoreOf(us[|us| - 1]) == ApplyAll(StoreOf(v), ops)
    decreases |ops|
  {
    if ops != [] {
      CallRefines(v, ops[0], us[0]);
      RunRefines(us[0], ops[1..], us[1..]);
      AllValidMore(us);
      if |us| > 1 {
        assert us[1..][|us| - 2] == us[|us| - 1];
      } else {
        assert us[1..] == [];
        assert ops[1..] == [];
      }
    }
  }

  /** In every state of a run the set bits are, without overlap, those of the
      directories' blocks and of the files' blocks and index sectors; no other bit
      is set. */
  lemma RunConserves(v: Volume, ops: seq<Op>, us: seq<Volume>, u: Volume)
    requires Valid(v) && IsRun(v, ops, us) && u in us
    ensures Valid(u) && Conserved(u.bits, u.base, u.kept, u.maps)
  {
    RunRefines(v, ops, us);
    assert Valid(u);
    BitsAreFootprints(u.bits, u.base, u.own, u.kept, u.maps);
  }

  /** A partition just formatted: the root directory's block is taken, and no file
      is there. */
  function Empty(base: nat, blocks: nat, root: Sector): Volume
    requires 0 < blocks
  {
    var bits := seq(blocks, b => b == 0);
    Volume(base, seq(base + blocks, b => ZERO)[base := root], bits, bits, map[], map[], {base}, map[])
  }

  lemma EmptyValid(base: nat, blocks: nat, root: Sector)
    requires 0 < base && 0 < blocks && base + blocks <= 0x8000_0000
    ensures Valid(Empty(base, blocks, root))
    ensures StoreOf(Empty(base, blocks, root)) == Store(map[], map[base := root])
  {
    var v := Empty(base, blocks, root);
    assert FilesOf(v) == map[];
    assert DirsOf(v) == map[base := root];
  }

  /** From a partition just formatted on, a run leaves exactly what its operations
      mean. */
  lemma RunFromEmpty(base: nat, blocks: nat, root: Sector, ops: seq<Op>, us: seq<Volume>)
    requires 0 < base && 0 < blocks && base + blocks <= 0x8000_0000
    requires Valid(Empty(base, blocks, root)) && IsRun(Empty(base, blocks, root), ops, us) && us != []
    ensures Valid(us[|us| - 1]) && StoreOf(us[|us| - 1]) == ApplyAll(Store(map[], map[base := root]), ops)
  {
    EmptyValid(base, blocks, root);
    RunRefines(Empty(base, blocks, root), ops, us);
  }
}
