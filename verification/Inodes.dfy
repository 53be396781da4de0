/** The inode table on the disk and the cache of open inodes. */
module Inodes {
  import opened Sequences
  import opened Sectors

  const COUNT: nat := 4096

  /** A struct inode of 76 bytes: `prev` and `next` are its link in the list of open
      inodes. */
  datatype Record = Record(no: Word, size: Word, opens: Word, flags: Word, sectors: seq<Word>, prev: Word, next: Word)

  predicate IsRecord(r: Record) { |r.sectors| == 13 }

  function Encode(r: Record): (s: seq<Byte>)
    requires IsRecord(r)
    ensures |s| == 76
  {
    Bytes4([r.no, r.size, r.opens, r.flags] + r.sectors + [r.prev, r.next])
  }

  function Decode(s: seq<Byte>): (r: Record)
    requires |s| == 76
    ensures IsRecord(r)
  {
    var w := Words(s);
    Record(w[0], w[1], w[2], w[3], w[4..17], w[17], w[18])
  }

  lemma DecodeEncode(r: Record)
    requires IsRecord(r)
    ensures Decode(Encode(r)) == r
  {
    var w := [r.no, r.size, r.opens, r.flags] + r.sectors + [r.prev, r.next];
    WordsOfBytes(w);
    assert w[4..17] == r.sectors;
  }

  /** Where each field of a record lies. */
  lemma FieldPlaces(r: Record)
    requires IsRecord(r)
    ensures var s := Encode(r);
            && NumberAt(s, 0) == r.no && NumberAt(s, 4) == r.size
            && NumberAt(s, 8) == r.opens && NumberAt(s, 12) == r.flags
            && (forall k :: 0 <= k < 13 ==> NumberAt(s, 16 + 4 * k) == r.sectors[k])
            && NumberAt(s, 68) == r.prev && NumberAt(s, 72) == r.next
  {
    FieldAt(r, 0, 0);
    FieldAt(r, 1, 4);
    FieldAt(r, 2, 8);
    FieldAt(r, 3, 12);
    FieldAt(r, 17, 68);
    FieldAt(r, 18, 72);
    forall k | 0 <= k < 13
      ensures NumberAt(Encode(r), 16 + 4 * k) == r.sectors[k]
    {
      FieldAt(r, 4 + k, 16 + 4 * k);
    }
  }

  lemma FieldAt(r: Record, i: nat, at: nat)
    requires IsRecord(r) && i < 19 && at == 4 * i
    ensures NumberAt(Encode(r), at) == ([r.no, r.size, r.opens, r.flags] + r.sectors + [r.prev, r.next])[i]
  {
    WordPlaces([r.no, r.size, r.opens, r.flags] + r.sectors + [r.prev, r.next], [], i);
  }

  /** On the disk nobody has the inode open, nobody denies writing (bit 0 of the
      flags), and no list has it; everything else is as in memory. */
  predicate Cleaned(r: Record, p: Record) {
    && p.opens == 0 && p.prev == 0 && p.next == 0 && p.flags % 2 == 0
    && p.no == r.no && p.size == r.size && p.sectors == r.sectors && p.flags / 2 == r.flags / 2
  }

  /** No record on the disk denies writing. */
  predicate Writable(disk: seq<Record>) {
    forall k :: 0 <= k < |disk| ==> disk[k].flags % 2 == 0
  }

  /** What is written: no open count, no write-deny flag (bit 0), no links. */
  function Pure(r: Record): (p: Record)
    ensures IsRecord(r) ==> IsRecord(p)
    ensures Cleaned(r, p)
  {
    r.(opens := 0, flags := r.flags - r.flags % 2, prev := 0, next := 0)
  }

  // ---------- The table ----------

  /** The table's 608 sectors as one run of bytes. */
  function Flat(table: seq<Sector>): (t: seq<Byte>)
    ensures |t| == 512 * |table|
  {
    seq(512 * |table|, j requires 0 <= j < 512 * |table| => table[j / 512][j % 512])
  }

  function RecordAt(table: seq<Sector>, no: nat): (s: seq<Byte>)
    requires |table| == 608 && no < COUNT
    ensures |s| == 76
  {
    Flat(table)[76 * no..76 * no + 76]
  }

  /** inode_locate: the first sector, the offset in it, and whether the record
      straddles two sectors. */
  function Locate(no: nat): (l: (nat, nat, bool))
    requires no < COUNT
    ensures 512 * l.0 + l.1 == 76 * no && l.1 < 512 && (l.2 <==> l.1 + 76 > 512)
    ensures l.0 < 608 && (l.2 ==> l.0 + 1 < 608)
  {
    (76 * no / 512, 76 * no % 512, 76 * no % 512 + 76 > 512)
  }

  /** A buffer of one or two sectors, read from the table. */
  function Span(table: seq<Sector>, l: (nat, nat, bool)): (b: seq<Byte>)
    requires l.0 < |table| && (l.2 ==> l.0 + 1 < |table|)
    ensures |b| == if l.2 then 1024 else 512
  {
    var first: seq<Byte> := table[l.0];
    if l.2 then first + table[l.0 + 1] else first
  }

  lemma SpanFlat(table: seq<Sector>, l: (nat, nat, bool), k: nat)
    requires l.0 < |table| && (l.2 ==> l.0 + 1 < |table|) && k < |Span(table, l)|
    ensures 512 * l.0 + k < |Flat(table)| && Span(table, l)[k] == Flat(table)[512 * l.0 + k]
  {
    if k < 512 { Split(l.0, k); } else { Split(l.0 + 1, k - 512); }
  }

  /** The record in the buffer is the record in the table. */
  lemma SpanRecord(table: seq<Sector>, no: nat)
    requires |table| == 608 && no < COUNT
    ensures Span(table, Locate(no))[Locate(no).1..Locate(no).1 + 76] == RecordAt(table, no)
  {
    var l := Locate(no);
    forall k | 0 <= k < 76
      ensures Span(table, l)[l.1..l.1 + 76][k] == RecordAt(table, no)[k]
    {
      SpanFlat(table, l, l.1 + k);
    }
  }

  /** Write a buffer of one or two sectors. */
  function WithSpan(table: seq<Sector>, l: (nat, nat, bool), b: seq<Byte>): (t: seq<Sector>)
    requires l.0 < |table| && (l.2 ==> l.0 + 1 < |table|) && |b| == if l.2 then 1024 else 512
    ensures |t| == |table|
  {
    if l.2 then table[l.0 := b[..512]][l.0 + 1 := b[512..]] else table[l.0 := b]
  }

  /** A patched buffer written back changes the patched bytes of the table and no
      others. */
  lemma WithSpanFlat(table: seq<Sector>, l: (nat, nat, bool), bytes: seq<Byte>, j: nat)
    requires l.0 < |table| && (l.2 ==> l.0 + 1 < |table|) && j < 512 * |table|
    requires l.1 + |bytes| <= |Span(table, l)|
    ensures var b := Span(table, l)[..l.1] + bytes + Span(table, l)[l.1 + |bytes|..];
            var at := 512 * l.0 + l.1;
            Flat(WithSpan(table, l, b))[j] ==
            if at <= j < at + |bytes| then bytes[j - at] else Flat(table)[j]
  {
    var s := Span(table, l);
    var b := s[..l.1] + bytes + s[l.1 + |bytes|..];
    var q, r := j / 512, j % 512;
    assert j == 512 * q + r;
    var k := j - 512 * l.0;
    if 0 <= k < |s| {
      SpanFlat(table, l, k);
      assert Flat(WithSpan(table, l, b))[j] == b[k];
    }
  }

  /** Two records share no byte. */
  lemma RecordsApart(no: nat, k: nat)
    requires no != k
    ensures 76 * no + 76 <= 76 * k || 76 * k + 76 <= 76 * no
  {}

  /** To write the record of one slot, even across two sectors, changes no other
      slot. */
  lemma SlotWritten(table: seq<Sector>, no: nat, bytes: seq<Byte>, k: nat)
    requires |table| == 608 && no < COUNT && k < COUNT && |bytes| == 76
    ensures var l, s := Locate(no), Span(table, Locate(no));
            var u := WithSpan(table, l, s[..l.1] + bytes + s[l.1 + 76..]);
            RecordAt(u, k) == if k == no then bytes else RecordAt(table, k)
  {
    var l, s := Locate(no), Span(table, Locate(no));
    var u := WithSpan(table, l, s[..l.1] + bytes + s[l.1 + 76..]);
    if k != no { RecordsApart(no, k); }
    forall x | 0 <= x < 76
      ensures RecordAt(u, k)[x] == if k == no then bytes[x] else RecordAt(table, k)[x]
    {
      WithSpanFlat(table, l, bytes, 76 * k + x);
    }
  }

  /** All records of the table. */
  function Records(table: seq<Sector>): (rs: seq<Record>)
    requires |table| == 608
    ensures |rs| == COUNT
  {
    seq(COUNT, no requires 0 <= no < COUNT => Decode(RecordAt(table, no)))
  }

  /** The slot inode_sync writes: its number is cut to eight bits. */
  function Slot(no: nat): (k: nat)
    ensures k < 256 && (k == no <==> no < 256)
  {
    no % 256
  }

  /** The table with a record written to its slot. */
  function Synced(table: seq<Sector>, r: Record): (t: seq<Sector>)
    requires |table| == 608 && IsRecord(r)
    ensures |t| == 608
  {
    var l := Locate(Slot(r.no));
    var s := Span(table, l);
    WithSpan(table, l, s[..l.1] + Encode(Pure(r)) + s[l.1 + 76..])
  }

  lemma SyncedRecord(table: seq<Sector>, r: Record, k: nat)
    requires |table| == 608 && IsRecord(r) && k < COUNT
    ensures Decode(RecordAt(Synced(table, r), k)) == if k == Slot(r.no) then Pure(r) else Decode(RecordAt(table, k))
  {
    SlotWritten(table, Slot(r.no), Encode(Pure(r)), k);
    DecodeEncode(Pure(r));
  }

  /** Bytes and sectors aside, one record changes. */
  lemma SyncedRecords(table: seq<Sector>, r: Record)
    requires |table| == 608 && IsRecord(r)
    ensures Records(Synced(table, r)) == Records(table)[Slot(r.no) := Pure(r)]
  {
    forall k | 0 <= k < COUNT
      ensures Records(Synced(table, r))[k] == Records(table)[Slot(r.no) := Pure(r)][k]
    {
      SyncedAt(table, r, k);
    }
  }

  lemma SyncedAt(table: seq<Sector>, r: Record, k: nat)
    requires |table| == 608 && IsRecord(r) && k < COUNT
    ensures Records(Synced(table, r))[k] == Records(table)[Slot(r.no) := Pure(r)][k]
  {
    SyncedRecord(table, r, k);
  }

  /** A record of zero bytes. */
  function Blank(): (r: Record)
    ensures IsRecord(r)
  {
    Record(0, 0, 0, 0, seq(13, k => 0), 0, 0)
  }

  lemma DecodeZeros()
    ensures Decode(Zeros(76)) == Blank()
  {
    forall k | 0 <= k < 19
      ensures Words(Zeros(76))[k] == 0
    {
      WordsOfZeros(19, k);
    }
    assert Words(Zeros(76))[4..17] == Blank().sectors;
  }

  /** The table with the bytes of one record zeroed. */
  function Erased(table: seq<Sector>, no: nat): (t: seq<Sector>)
    requires |table| == 608 && no < COUNT
    ensures |t| == 608
  {
    var l := Locate(no);
    var s := Span(table, l);
    WithSpan(table, l, s[..l.1] + Zeros(76) + s[l.1 + 76..])
  }

  /** inode_delete blanks the record of the very number, which is not cut to eight
      bits here. */
  lemma ErasedRecords(table: seq<Sector>, no: nat)
    requires |table| == 608 && no < COUNT
    ensures Records(Erased(table, no)) == Records(table)[no := Blank()]
  {
    DecodeZeros();
    forall k | 0 <= k < COUNT
      ensures Records(Erased(table, no))[k] == Records(table)[no := Blank()][k]
    {
      SlotWritten(table, no, Zeros(76), k);
    }
  }

  // ---------- The list of open inodes ----------

  predicate ListOk(open: seq<Record>) {
    && (forall i :: 0 <= i < |open| ==> IsRecord(open[i]) && open[i].no < COUNT && open[i].opens >= 1)
    && (forall i, j :: 0 <= i < j < |open| ==> open[i].no != open[j].no)
  }

  /** Where the list has inode `no`: its length if nowhere. */
  function Find(open: seq<Record>, no: nat): (k: nat)
    ensures k <= |open| && (k < |open| ==> open[k].no == no)
    ensures forall i :: 0 <= i < k ==> open[i].no != no
  {
    if open == [] || open[0].no == no then 0 else 1 + Find(open[1..], no)
  }

  predicate Has(open: seq<Record>, no: nat) { Find(open, no) < |open| }

  /** An inode as everybody sees it: the open one if it is open, else what the
      disk has. */
  function Seen(open: seq<Record>, no: nat, disk: Record): Record {
    if Has(open, no) then Pure(open[Find(open, no)]) else Pure(disk)
  }

  lemma FindUnique(open: seq<Record>, k: nat)
    requires ListOk(open) && k < |open|
    ensures Find(open, open[k].no) == k
  {
    assert Find(open, open[k].no) <= k;
  }

  /** One entry changed, but not its number. */
  lemma FindChanged(open: seq<Record>, k: nat, r: Record, j: nat)
    requires k < |open| && r.no == open[k].no
    ensures Find(open[k := r], j) == Find(open, j)
  {
    var u := open[k := r];
    var x, y := Find(open, j), Find(u, j);
    assert x < |open| ==> u[x].no == j;
    assert y < |u| ==> open[y].no == j;
  }

  lemma FindPushed(open: seq<Record>, r: Record, j: nat)
    ensures Find([r] + open, j) == if r.no == j then 0 else 1 + Find(open, j)
  {
    assert ([r] + open)[1..] == open;
  }

  function Removed(open: seq<Record>, k: nat): seq<Record>
    requires k < |open|
  {
    open[..k] + open[k + 1..]
  }

  lemma RemovedAt(open: seq<Record>, k: nat, i: nat)
    requires k < |open| && i < |open| - 1
    ensures Removed(open, k)[i] == open[if i < k then i else i + 1]
  {}

  lemma FindRemoved(open: seq<Record>, k: nat, j: nat)
    requires k < |open| && j != open[k].no
    ensures Has(Removed(open, k), j) <==> Has(open, j)
    ensures Has(open, j) ==> Removed(open, k)[Find(Removed(open, k), j)] == open[Find(open, j)]
  {
    var x := Find(open, j);
    FindAfter(open, k, j);
    if x < |open| { RemovedAt(open, k, if x < k then x else x - 1); }
  }

  lemma {:induction false} FindAfter(open: seq<Record>, k: nat, j: nat)
    requires k < |open| && j != open[k].no
    ensures Find(Removed(open, k), j) == if Find(open, j) < k then Find(open, j) else Find(open, j) - 1
  {
    if k == 0 {
      assert Removed(open, 0) == open[1..];
    } else if open[0].no != j {
      FindAfter(open[1..], k - 1, j);
      RemovedAfter(open, k);
      FindPushed(Removed(open[1..], k - 1), open[0], j);
    }
  }

  lemma RemovedAfter(open: seq<Record>, k: nat)
    requires 0 < k < |open|
    ensures Removed(open, k) == [open[0]] + Removed(open[1..], k - 1)
  {}

  lemma RemovedGone(open: seq<Record>, k: nat)
    requires ListOk(open) && k < |open|
    ensures ListOk(Removed(open, k)) && !Has(Removed(open, k), open[k].no)
  {
    var u := Removed(open, k);
    forall i | 0 <= i < |u| ensures u[i] == open[if i < k then i else i + 1] { RemovedAt(open, k, i); }
  }

  // ---------- The cache ----------

  /** `disk` are the records of the table; `open` is the list of open inodes, the
      last opened first. */
  datatype Cache = Cache(disk: seq<Record>, open: seq<Record>)

  /** At most one open copy for each number. */
  predicate CacheOk(c: Cache) {
    |c.disk| == COUNT && ListOk(c.open) && forall no :: 0 <= no < COUNT ==> IsRecord(c.disk[no])
  }

  function Logical(c: Cache, no: nat): Record
    requires |c.disk| == COUNT && no < COUNT
  {
    Seen(c.open, no, c.disk[no])
  }

  /** How often an inode is open. */
  function Opens(c: Cache, no: nat): nat {
    if Has(c.open, no) then c.open[Find(c.open, no)].opens else 0
  }

  function Bumped(open: seq<Record>, k: nat, opens: Word): seq<Record>
    requires k < |open|
  {
    open[k := open[k].(opens := opens)]
  }

  /** inode_open. */
  function Opened(c: Cache, no: nat): Cache
    requires |c.disk| == COUNT && no < COUNT && Opens(c, no) < 0xffff_ffff
  {
    if Has(c.open, no) then c.(open := Bumped(c.open, Find(c.open, no), Opens(c, no) + 1))
    else c.(open := [c.disk[no].(opens := 1)] + c.open)
  }

  lemma BumpSeen(open: seq<Record>, k: nat, opens: Word, j: nat, disk: Record)
    requires ListOk(open) && k < |open| && opens >= 1
    ensures ListOk(Bumped(open, k, opens)) && Seen(Bumped(open, k, opens), j, disk) == Seen(open, j, disk)
    ensures Find(Bumped(open, k, opens), j) == Find(open, j)
  {
    FindChanged(open, k, open[k].(opens := opens), j);
  }

  lemma PushSeen(open: seq<Record>, r: Record, j: nat, disk: Record)
    requires ListOk(open) && IsRecord(r) && r.no < COUNT && r.opens >= 1 && !Has(open, r.no)
    requires j == r.no ==> Pure(r) == Pure(disk)
    ensures ListOk([r] + open) && Seen([r] + open, j, disk) == Seen(open, j, disk)
    ensures Find([r] + open, r.no) == 0
  {
    FindPushed(open, r, j);
    FindPushed(open, r, r.no);
    forall i | 0 <= i < |open| ensures open[i].no != r.no { assert i < Find(open, r.no); }
  }

  /** One that is open already. */
  lemma OpenAgain(c: Cache, no: nat, j: nat, k: nat, opens: Word)
    requires CacheOk(c) && no < COUNT && j < COUNT && k == Find(c.open, no) < |c.open| && opens == c.open[k].opens + 1
    ensures var u := c.(open := Bumped(c.open, k, opens));
            CacheOk(u) && Opens(u, no) == opens && Logical(u, j) == Logical(c, j)
  {
    BumpSeen(c.open, k, opens, j, c.disk[j]);
    BumpSeen(c.open, k, opens, no, c.disk[no]);
  }

  /** Opening an inode whose record carries its number keeps one copy for each
      number, counts, and changes nobody's view of any inode. */
  lemma OpenTransparent(c: Cache, no: nat, j: nat)
    requires CacheOk(c) && no < COUNT && j < COUNT && Opens(c, no) < 0xffff_ffff
    requires !Has(c.open, no) ==> c.disk[no].no == no
    ensures CacheOk(Opened(c, no)) && Opens(Opened(c, no), no) == Opens(c, no) + 1
    ensures Logical(Opened(c, no), j) == Logical(c, j)
  {
    if Has(c.open, no) {
      OpenAgain(c, no, j, Find(c.open, no), Opens(c, no) + 1);
    } else {
      PushSeen(c.open, c.disk[no].(opens := 1), j, c.disk[j]);
    }
  }

  /** What inode_sync does to the records. */
  function Stored(disk: seq<Record>, r: Record): (d: seq<Record>)
    requires |disk| == COUNT
    ensures |d| == COUNT
  {
    disk[Slot(r.no) := Pure(r)]
  }

  /** The record lands in its own slot, and no other slot changes, exactly when
      its number fits in eight bits (or the slots had those contents anyway); in
      any other case the slot written no longer carries its own number. */
  lemma StoredWell(disk: seq<Record>, r: Record)
    requires |disk| == COUNT && r.no < COUNT
    ensures Stored(disk, r)[r.no] == Pure(r) <==> r.no < 256 || disk[r.no] == Pure(r)
    ensures (forall k :: 0 <= k < COUNT && k != r.no ==> Stored(disk, r)[k] == disk[k]) <==>
            r.no < 256 || disk[Slot(r.no)] == Pure(r)
    ensures Stored(disk, r)[Slot(r.no)].no == Slot(r.no) <==> r.no < 256
  {
    assert Stored(disk, r)[Slot(r.no)] == Pure(r);
  }

  /** inode_close of an open inode; the root's is never closed. */
  function Closed(c: Cache, no: nat): Cache
    requires CacheOk(c) && Has(c.open, no)
  {
    var k := Find(c.open, no);
    if no == 0 then c
    else if c.open[k].opens > 1 then c.(open := Bumped(c.open, k, c.open[k].opens - 1))
    else Cache(Stored(c.disk, c.open[k].(opens := 0)), Removed(c.open, k))
  }

  lemma CloseCounts(c: Cache, no: nat)
    requires CacheOk(c) && Has(c.open, no)
    ensures CacheOk(Closed(c, no))
    ensures Opens(Closed(c, no), no) == Opens(c, no) - (if no == 0 then 0 else 1)
  {
    var k := Find(c.open, no);
    if no != 0 && c.open[k].opens > 1 {
      FindChanged(c.open, k, c.open[k].(opens := c.open[k].opens - 1), no);
    } else if no != 0 {
      RemovedGone(c.open, k);
    }
  }

  /** What everybody sees after an open inode has been written to a slot and taken
      off the list. */
  lemma LastClose(c: Cache, no: nat, j: nat)
    requires CacheOk(c) && Has(c.open, no) && no != 0 && c.open[Find(c.open, no)].opens == 1 && j < COUNT
    ensures Logical(Closed(c, no), j) ==
            if j != no && Has(c.open, j) then Logical(c, j)
            else if j == Slot(no) then Logical(c, no)
            else Pure(c.disk[j])
  {
    var k, u := Find(c.open, no), Closed(c, no);
    if j == no { RemovedGone(c.open, k); } else { FindRemoved(c.open, k, j); }
    PureTwice(c.open[k]);
  }

  lemma PureTwice(r: Record)
    ensures Pure(Pure(r.(opens := 0))) == Pure(r)
  {}

  /** Closing an inode whose number fits in eight bits changes nobody's view of
      any inode: the last close writes it back. */
  lemma CloseTransparent(c: Cache, no: nat, j: nat)
    requires CacheOk(c) && Has(c.open, no) && no < 256 && j < COUNT
    ensures Logical(Closed(c, no), j) == Logical(c, j)
  {
    var k := Find(c.open, no);
    if no != 0 && c.open[k].opens > 1 {
      BumpSeen(c.open, k, c.open[k].opens - 1, j, c.disk[j]);
    } else if no != 0 {
      LastClose(c, no, j);
    }
  }

  /** Closing one with a greater number for the last time brings back its record
      as it was on the disk, and puts it in the slot of another: that slot no
      longer carries its own number. */
  lemma CloseMisplaces(c: Cache, no: nat)
    requires CacheOk(c) && Has(c.open, no) && 256 <= no && c.open[Find(c.open, no)].opens == 1
    ensures no < COUNT && Logical(Closed(c, no), no) == Pure(c.disk[no])
    ensures Closed(c, no).disk[Slot(no)].no == no
    ensures !Has(c.open, Slot(no)) ==> Logical(Closed(c, no), Slot(no)) == Logical(c, no)
  {
    LastClose(c, no, no);
    LastClose(c, no, Slot(no));
  }

  ghost predicate SameView(c: Cache, d: Cache)
    requires |c.disk| == COUNT && |d.disk| == COUNT
  {
    forall j: nat :: j < COUNT ==> Logical(d, j) == Logical(c, j)
  }

  /** The close keeps everybody's view exactly when it is not the last one, or the
      number fits in eight bits, or the record on the disk was up to date and
      nobody sees the slot written: because that slot's own inode is open, or
      because the slot has those contents already.  On a table whose records carry
      their own numbers the latter cannot be. */
  lemma CloseExactly(c: Cache, no: nat)
    requires CacheOk(c) && Has(c.open, no)
    ensures CacheOk(Closed(c, no)) && no < COUNT
    ensures SameView(c, Closed(c, no)) <==>
            || no < 256 || Opens(c, no) > 1
            || (&& Logical(c, no) == Pure(c.disk[no])
                && (Has(c.open, Slot(no)) || Logical(c, no) == Pure(c.disk[Slot(no)])))
    ensures (forall k :: 0 <= k < COUNT ==> c.disk[k].no == k) ==>
              (SameView(c, Closed(c, no)) <==>
               no < 256 || Opens(c, no) > 1 || (Has(c.open, Slot(no)) && Logical(c, no) == Pure(c.disk[no])))
  {
    CloseCounts(c, no);
    var k, u := Find(c.open, no), Closed(c, no);
    if 256 <= no && c.open[k].opens == 1 {
      LastClose(c, no, no);
      LastClose(c, no, Slot(no));
      if Logical(u, no) == Logical(c, no) && Logical(u, Slot(no)) == Logical(c, Slot(no)) {
        forall j: nat | j < COUNT ensures Logical(u, j) == Logical(c, j) { LastClose(c, no, j); }
      }
    } else {
      forall j: nat | j < COUNT
        ensures Logical(u, j) == Logical(c, j)
      {
        if no < 256 { CloseTransparent(c, no, j); } else { BumpSeen(c.open, k, c.open[k].opens - 1, j, c.disk[j]); }
      }
    }
  }

  /** A change made through an open inode is seen at once. */
  function Changed(c: Cache, no: nat, size: Word, sectors: seq<Word>): Cache
    requires Has(c.open, no)
  {
    var k := Find(c.open, no);
    c.(open := c.open[k := c.open[k].(size := size, sectors := sectors)])
  }

  /** And with CloseTransparent it survives the close. */
  lemma ChangeSeen(c: Cache, no: nat, size: Word, sectors: seq<Word>, j: nat)
    requires CacheOk(c) && Has(c.open, no) && no < COUNT && |sectors| == 13 && j < COUNT
    ensures CacheOk(Changed(c, no, size, sectors))
    ensures Logical(Changed(c, no, size, sectors), j) ==
            if j == no then Logical(c, no).(size := size, sectors := sectors) else Logical(c, j)
  {
    var k := Find(c.open, no);
    FindChanged(c.open, k, c.open[k].(size := size, sectors := sectors), j);
  }

  // ---------- The write-deny flag ----------

  /** Uses of inodes: file_open of a number and, for writing, its flag, file_close
      with its flag, and a call that changes a file and saves it. */
  datatype Use =
    | Open(no: nat)
    | Deny(no: nat)
    | Allow(no: nat)
    | Close(no: nat)
    | Save(no: nat, size: Word, sectors: seq<Word>)

  function Flagged(c: Cache, no: nat, bit: Word): Cache
    requires Has(c.open, no) && bit <= 1
  {
    var k := Find(c.open, no);
    c.(open := c.open[k := c.open[k].(flags := c.open[k].flags - c.open[k].flags % 2 + bit)])
  }

  predicate Usable(c: Cache, u: Use) {
    && CacheOk(c) && u.no < COUNT
    && match u
       case Open(no) => Opens(c, no) < 0xffff_ffff && (Has(c.open, no) || c.disk[no].no == no)
       case Save(no, _, sectors) => Has(c.open, no) && |sectors| == 13
       case _ => Has(c.open, u.no)
  }

  function Used(c: Cache, u: Use): Cache
    requires Usable(c, u)
  {
    match u
    case Open(no) => Opened(c, no)
    case Deny(no) => Flagged(c, no, 1)
    case Allow(no) => Flagged(c, no, 0)
    case Close(no) => Closed(c, no)
    case Save(no, size, sectors) =>
      var d := Changed(c, no, size, sectors);
      d.(disk := Stored(c.disk, d.open[Find(c.open, no)]))
  }

  lemma UsedKeeps(c: Cache, u: Use)
    requires Usable(c, u) && Writable(c.disk)
    ensures CacheOk(Used(c, u)) && Writable(Used(c, u).disk)
  {
    match u
    case Open(no) => OpenTransparent(c, no, no);
    case Deny(no) => FlaggedKeeps(c, no, 1);
    case Allow(no) => FlaggedKeeps(c, no, 0);
    case Close(no) => CloseCounts(c, no);
    case Save(no, size, sectors) => SaveKeeps(c, no, size, sectors);
  }

  lemma FlaggedKeeps(c: Cache, no: nat, bit: Word)
    requires CacheOk(c) && Has(c.open, no) && bit <= 1
    ensures CacheOk(Flagged(c, no, bit)) && Flagged(c, no, bit).disk == c.disk
  {
    FindChanged(c.open, Find(c.open, no), Flagged(c, no, bit).open[Find(c.open, no)], no);
  }

  lemma SaveKeeps(c: Cache, no: nat, size: Word, sectors: seq<Word>)
    requires CacheOk(c) && Has(c.open, no) && no < COUNT && |sectors| == 13 && Writable(c.disk)
    ensures CacheOk(Used(c, Save(no, size, sectors))) && Writable(Used(c, Save(no, size, sectors)).disk)
  {
    ChangeSeen(c, no, size, sectors, no);
  }

  predicate AllUsable(c: Cache, us: seq<Use>)
    decreases us
  {
    us == [] || (Usable(c, us[0]) && AllUsable(Used(c, us[0]), us[1..]))
  }

  function AllUsed(c: Cache, us: seq<Use>): Cache
    requires AllUsable(c, us)
    decreases us
  {
    if us == [] then c else AllUsed(Used(c, us[0]), us[1..])
  }

  /** Over every run of such uses the flag never reaches the disk: whoever mounts
      the partition finds every inode free to be written. */
  lemma {:induction false} NeverDenied(c: Cache, us: seq<Use>)
    requires CacheOk(c) && Writable(c.disk) && AllUsable(c, us)
    ensures CacheOk(AllUsed(c, us)) && Writable(AllUsed(c, us).disk)
    decreases us
  {
    if us != [] {
      UsedKeeps(c, us[0]);
      NeverDenied(Used(c, us[0]), us[1..]);
    }
  }

  // ---------- The entries ----------

  class InodeCache {
    var table: seq<Sector>
    var open: seq<Record>

    constructor (table: seq<Sector>)
      requires |table| == 608
      ensures Valid() && State() == Cache(Records(table), [])
    {
      this.table := table;
      this.open := [];
    }

    ghost predicate Valid()
      reads this
    {
      |table| == 608 && CacheOk(State())
    }

    function State(): Cache
      requires |table| == 608
      reads this
    {
      Cache(Records(table), open)
    }

    /** ide_read of one or two sectors. */
    method ReadSpan(l: (nat, nat, bool)) returns (b: seq<Byte>)
      requires l.0 < |table| && (l.2 ==> l.0 + 1 < |table|)
      ensures b == Span(table, l)
    {
      b := table[l.0];
      if l.2 {
        b := b + table[l.0 + 1];
      }
    }

    /** ide_write of one or two sectors. */
    method WriteSpan(l: (nat, nat, bool), b: seq<Byte>)
      requires l.0 < |table| && (l.2 ==> l.0 + 1 < |table|) && |b| == if l.2 then 1024 else 512
      modifies `table
      ensures table == WithSpan(old(table), l, b)
    {
      if l.2 {
        table := table[l.0 := b[..512]];
        table := table[l.0 + 1 := b[512..]];
      } else {
        table := table[l.0 := b];
      }
    }

    /** inode_sync: the slot's bytes are read, replaced and written back. */
    method InodeSync(r: Record)
      requires |table| == 608 && IsRecord(r)
      modifies `table
      ensures |table| == 608 && Records(table) == Stored(Records(old(table)), r)
      ensures Cleaned(r, Records(table)[r.no % 256])
      ensures forall k :: 0 <= k < COUNT && k != r.no % 256 ==> Records(table)[k] == Records(old(table))[k]
      ensures old(Writable(Records(table))) ==> Writable(Records(table))
    {
      SyncedRecords(table, r);
      WriteRecord(r);
    }

    method WriteRecord(r: Record)
      requires |table| == 608 && IsRecord(r)
      modifies `table
      ensures table == Synced(old(table), r)
    {
      var l := Locate(Slot(r.no));
      var p := r.(opens := 0);
      p := p.(flags := p.flags - p.flags % 2);
      p := p.(prev := 0, next := 0);
      var b := ReadSpan(l);
      b := b[..l.1] + Encode(p) + b[l.1 + 76..];
      WriteSpan(l, b);
    }

    /** inode_delete, but for the inode bitmap. */
    method InodeDelete(no: nat)
      requires |table| == 608 && no < COUNT
      modifies `table
      ensures |table| == 608 && Records(table) == Records(old(table))[no := Blank()]
    {
      ErasedRecords(table, no);
      var l := Locate(no);
      var b := ReadSpan(l);
      b := b[..l.1] + Zeros(76) + b[l.1 + 76..];
      WriteSpan(l, b);
    }

    /** list_remove of an open inode, whatever its count. */
    method Unlist(k: nat)
      requires k < |open|
      modifies `open
      ensures open == Removed(old(open), k)
    {
      open := open[..k] + open[k + 1..];
    }

    /** The walk along the list. */
    method Search(no: nat) returns (k: nat)
      requires ListOk(open)
      ensures k == Find(open, no)
    {
      k := 0;
      while k < |open|
        invariant k <= |open| && forall i :: 0 <= i < k ==> open[i].no != no
      {
        if open[k].no == no {
          FindUnique(open, k);
          return;
        }
        k := k + 1;
      }
      assert Find(open, no) == |open|;
    }

    /** inode_open: the position in the list of the inode opened. */
    method InodeOpen(no: nat) returns (k: nat)
      requires Valid() && no < COUNT && Opens(State(), no) < 0xffff_ffff
      modifies `open
      ensures |table| == 608 && State() == Opened(old(State()), no)
      ensures k < |open| && (Has(old(open), no) || Records(table)[no].no == no ==> open[k].no == no)
    {
      k := Search(no);
      if k < |open| {
        open := open[k := open[k].(opens := open[k].opens + 1)];
      } else {
        OpenFromDisk(no);
        k := 0;
      }
    }

    method OpenFromDisk(no: nat)
      requires |table| == 608 && no < COUNT
      modifies `open
      ensures open == [Records(table)[no].(opens := 1)] + old(open)
    {
      var r := ReadRecord(no);
      PushOpen(r);
    }

    /** list_push of the new copy, and its first opening. */
    method PushOpen(r: Record)
      modifies `open
      ensures open == [r.(opens := 1)] + old(open)
    {
      open := [r] + open;
      open := open[0 := open[0].(opens := 1)];
    }

    method ReadRecord(no: nat) returns (r: Record)
      requires |table| == 608 && no < COUNT
      ensures r == Records(table)[no]
    {
      var l := Locate(no);
      var b := ReadSpan(l);
      SpanRecord(table, no);
      r := Decode(b[l.1..l.1 + 76]);
    }

    /** inode_close of the inode at position k of the list. */
    method InodeClose(k: nat)
      requires Valid() && k < |open|
      modifies `table, `open
      ensures Has(old(open), old(open)[k].no)
      ensures Valid() && State() == Closed(old(State()), old(open)[k].no)
      ensures var r := old(open)[k];
              if r.no == 0 || r.opens > 1 then table == old(table) else Cleaned(r, Records(table)[r.no % 256])
      ensures old(Writable(Records(table))) ==> Writable(Records(table))
    {
      FindUnique(open, k);
      CloseCounts(State(), open[k].no);
      if open[k].no == 0 {
        return;
      }
      var r := open[k].(opens := open[k].opens - 1);
      if r.opens == 0 {
        open := open[..k] + open[k + 1..];
        InodeSync(r);
      } else {
        open := open[k := r];
      }
    }
  }
}
